/** `RequestBoundsMiddleware` of `src/asic/api/limits.py`: three variables shared by a counting
    `receive` and a tracking `send` around an application that may do anything, including
    swallowing the abort. */
module BodyBounds {
  import opened Wrappers

  /** From the server: a part of the body, or any other message. */
  datatype Incoming = BodyPart(size: nat) | OtherMessage

  /** To the client. */
  datatype Outgoing = ResponseStart(status: int) | ResponseBody(payload: string)

  /** What the application does next; a receive names the message the server has for it. */
  datatype Action = Receive(message: Incoming) | Send(response: Outgoing)

  /** How the application ended: normally, with the middleware's own abort, or with any other
      exception, which passes through. */
  datatype Ending = Returns | AbortsTooLarge | Raises

  function Rejection(status: int): seq<Outgoing>
  {
    [ResponseStart(status), ResponseBody(if status == 413 then "payload_too_large" else "unsupported_media_type")]
  }

  // ---------- Reference: the client's view as a function of the application's actions ----------

  /** Body bytes the application has asked for. */
  ghost function Requested(actions: seq<Action>): nat
  {
    if actions == [] then 0
    else
      var last := actions[|actions| - 1];
      Requested(actions[..|actions| - 1])
      + if last.Receive? && last.message.BodyPart? then last.message.size else 0
  }

  ghost predicate Crossed(max: int, actions: seq<Action>)
  {
    Requested(actions) > max
  }

  /** What the application sent while the ceiling held. */
  ghost function SentInTime(max: int, actions: seq<Action>): seq<Outgoing>
  {
    if actions == [] then []
    else
      var init, last := actions[..|actions| - 1], actions[|actions| - 1];
      SentInTime(max, init) + if last.Send? && !Crossed(max, init) then [last.response] else []
  }

  ghost predicate SentTooLate(max: int, actions: seq<Action>)
  {
    exists i :: 0 <= i < |actions| && actions[i].Send? && Crossed(max, actions[..i])
  }

  predicate HasStart(sent: seq<Outgoing>)
  {
    exists i :: 0 <= i < |sent| && sent[i].ResponseStart?
  }

  /** The 413 is due once the ceiling is crossed before any response was started, as soon as the
      application sends anything or ends other than by a foreign exception. */
  ghost predicate RejectionDue(max: int, actions: seq<Action>, ending: Option<Ending>)
  {
    && Crossed(max, actions)
    && !HasStart(SentInTime(max, actions))
    && (SentTooLate(max, actions) || (ending.Some? && !ending.value.Raises?))
  }

  ghost function ClientSees(max: int, actions: seq<Action>, ending: Option<Ending>): seq<Outgoing>
  {
    SentInTime(max, actions) + if RejectionDue(max, actions, ending) then Rejection(413) else []
  }

  /** Body bytes the application was actually given. */
  ghost function Handed(max: int, actions: seq<Action>): nat
  {
    if actions == [] then 0
    else
      var init, last := actions[..|actions| - 1], actions[|actions| - 1];
      Handed(max, init)
      + if last.Receive? && last.message.BodyPart? && !Crossed(max, actions) then last.message.size else 0
  }

  // ---------- The middleware around one request ----------

  class Exchange {
    const max: int
    var received: int
    var exceeded: bool
    var started: bool
    /** What the client has been sent, and the bytes the application was given. */
    var client: seq<Outgoing>
    var handed: int
    ghost var actions: seq<Action>

    ghost predicate Valid()
      reads this
    {
      && max >= 0
      && received == Requested(actions)
      && (exceeded <==> Crossed(max, actions))
      && handed == Handed(max, actions)
      && client == ClientSees(max, actions, None)
      && (started <==> HasStart(client))
    }

    constructor (max: int)
      requires max >= 0
      ensures Valid() && this.max == max && actions == []
    {
      this.max := max;
      received, exceeded, started, client, handed, actions := 0, false, false, [], 0, [];
    }

    /** `bounded_receive`; `None` is the raised abort. */
    method BoundedReceive(message: Incoming) returns (given: Option<Incoming>)
      requires Valid()
      modifies this
      ensures Valid() && actions == old(actions) + [Receive(message)]
      ensures given == if message.BodyPart? && Crossed(max, actions) then None else Some(message)
      ensures given == None <==> message.BodyPart? && old(received) + message.size > max
      ensures given.Some? ==> given.value == message
      ensures received == old(received) + (if message.BodyPart? then message.size else 0)
      ensures client == old(client)
      ensures handed == old(handed) + if message.BodyPart? && given.Some? then message.size else 0
    {
      ReceiveStep(max, actions, message);
      hide ClientSees, HasStart, Requested, Handed;
      actions := actions + [Receive(message)];
      if message.BodyPart? {
        received := received + message.size;
        if received > max {
          exceeded := true;
          return None;
        }
        handed := handed + message.size;
      }
      return Some(message);
    }

    /** `tracking_send` */
    method TrackingSend(response: Outgoing)
      requires Valid()
      modifies this
      ensures Valid() && actions == old(actions) + [Send(response)]
      ensures client == old(client) + if !Crossed(max, old(actions)) then [response]
                                      else if HasStart(old(client)) then [] else Rejection(413)
      ensures client == old(client) +
                if old(received) <= max then [response]
                else if exists i :: 0 <= i < |old(client)| && old(client)[i].ResponseStart? then []
                else [ResponseStart(413), ResponseBody("payload_too_large")]
      ensures handed == old(handed) && received == old(received)
    {
      hide ClientSees, HasStart, Requested, Handed, Crossed, Rejection;
      SendEffect(max, actions, response);
      StartMeans(client);
      CrossedMeans(max, actions);
      RejectionIs();
      actions := actions + [Send(response)];
      if exceeded {
        if !started {
          started := true;
          client := client + Rejection(413);
        }
        return;
      }
      if response.ResponseStart? {
        started := true;
      }
      client := client + [response];
    }

    /** After the application: the abort is suppressed, any other exception is not. */
    method Finish(ending: Ending)
      requires Valid()
      modifies this`client
      ensures client == ClientSees(max, actions, Some(ending))
    {
      ClientStarted(max, actions);
      if ending.Raises? {
        return;
      }
      if exceeded && !started {
        client := client + Rejection(413);
      }
    }
  }

  lemma CrossedMeans(max: int, actions: seq<Action>)
    ensures Crossed(max, actions) <==> Requested(actions) > max
  {
  }

  lemma RejectionIs()
    ensures Rejection(413) == [ResponseStart(413), ResponseBody("payload_too_large")]
    ensures Rejection(415) == [ResponseStart(415), ResponseBody("unsupported_media_type")]
  {
  }

  lemma StartMeans(sent: seq<Outgoing>)
    ensures HasStart(sent) <==> exists i :: 0 <= i < |sent| && sent[i].ResponseStart?
  {
  }

  lemma StartOfSum(a: seq<Outgoing>, b: seq<Outgoing>)
    ensures HasStart(a + b) <==> HasStart(a) || HasStart(b)
  {
    if HasStart(a) {
      var i :| 0 <= i < |a| && a[i].ResponseStart?;
      assert (a + b)[i].ResponseStart?;
    }
    if HasStart(b) {
      var i :| 0 <= i < |b| && b[i].ResponseStart?;
      assert (a + b)[|a| + i].ResponseStart?;
    }
    if HasStart(a + b) {
      var i :| 0 <= i < |a + b| && (a + b)[i].ResponseStart?;
      assert i < |a| ==> a[i].ResponseStart?;
      assert i >= |a| ==> b[i - |a|].ResponseStart?;
    }
  }

  lemma RejectionStarts()
    ensures HasStart(Rejection(413))
  {
    assert Rejection(413)[0].ResponseStart?;
  }

  /** Whether the client has seen a start decides whether the 413 is still owed. */
  lemma ClientStarted(max: int, actions: seq<Action>)
    ensures HasStart(ClientSees(max, actions, None)) <==>
            HasStart(SentInTime(max, actions)) || SentTooLate(max, actions)
    ensures SentTooLate(max, actions) ==> Crossed(max, actions)
  {
    var sent := SentInTime(max, actions);
    if SentTooLate(max, actions) { TooLateMeansCrossed(max, actions); }
    if RejectionDue(max, actions, None) {
      StartOfSum(sent, Rejection(413));
      RejectionStarts();
    } else {
      assert sent + [] == sent;
    }
  }

  lemma ReceiveStep(max: int, actions: seq<Action>, message: Incoming)
    ensures var next := actions + [Receive(message)];
            && Requested(next) == Requested(actions) + (if message.BodyPart? then message.size else 0)
            && SentInTime(max, next) == SentInTime(max, actions)
            && Handed(max, next) == Handed(max, actions)
                 + (if message.BodyPart? && Requested(next) <= max then message.size else 0)
            && (SentTooLate(max, next) <==> SentTooLate(max, actions))
            && ClientSees(max, next, None) == ClientSees(max, actions, None)
  {
    var next := actions + [Receive(message)];
    assert next[..|actions|] == actions;
    TooLateStep(max, actions, Receive(message));
    if SentTooLate(max, actions) { TooLateMeansCrossed(max, actions); }
  }

  lemma SendStep(max: int, actions: seq<Action>, response: Outgoing)
    ensures var next := actions + [Send(response)];
            && Requested(next) == Requested(actions)
            && Handed(max, next) == Handed(max, actions)
            && SentInTime(max, next) == SentInTime(max, actions) + (if Crossed(max, actions) then [] else [response])
            && ClientSees(max, next, None) ==
                 if !Crossed(max, actions) then ClientSees(max, actions, None) + [response]
                 else if HasStart(ClientSees(max, actions, None)) then ClientSees(max, actions, None)
                 else ClientSees(max, actions, None) + Rejection(413)
  {
    var next := actions + [Send(response)];
    assert next[..|actions|] == actions;
    TooLateStep(max, actions, Send(response));
    ClientStarted(max, actions);
    assert SentInTime(max, next) == SentInTime(max, actions) + if Crossed(max, actions) then [] else [response];
  }

  /** What a send does to everything the middleware keeps track of. */
  lemma SendEffect(max: int, actions: seq<Action>, response: Outgoing)
    ensures var next, client := actions + [Send(response)], ClientSees(max, actions, None);
            && Requested(next) == Requested(actions) && Handed(max, next) == Handed(max, actions)
            && (Crossed(max, next) <==> Crossed(max, actions))
            && (if !Crossed(max, actions) then
                  && ClientSees(max, next, None) == client + [response]
                  && (HasStart(client + [response]) <==> HasStart(client) || response.ResponseStart?)
                else if HasStart(client) then ClientSees(max, next, None) == client
                else ClientSees(max, next, None) == client + Rejection(413) && HasStart(client + Rejection(413)))
  {
    SendStep(max, actions, response);
    var client := ClientSees(max, actions, None);
    StartOfSum(client, [response]);
    StartOfSum(client, Rejection(413));
    RejectionStarts();
    assert HasStart([response]) <==> response.ResponseStart? by { assert [response][0] == response; }
    hide ClientSees, HasStart, Requested, Handed, Rejection;
  }

  lemma TooLateStep(max: int, actions: seq<Action>, a: Action)
    ensures SentTooLate(max, actions + [a]) <==>
            SentTooLate(max, actions) || (a.Send? && Crossed(max, actions))
  {
    var next := actions + [a];
    assert next[..|actions|] == actions;
    if SentTooLate(max, actions) {
      var i :| 0 <= i < |actions| && actions[i].Send? && Crossed(max, actions[..i]);
      assert next[..i] == actions[..i] && next[i] == actions[i];
    }
    if SentTooLate(max, next) {
      var i :| 0 <= i < |next| && next[i].Send? && Crossed(max, next[..i]);
      if i < |actions| { assert next[..i] == actions[..i] && next[i] == actions[i]; }
    }
  }

  lemma {:induction false} RequestedGrows(actions: seq<Action>, n: nat)
    requires n <= |actions|
    ensures Requested(actions[..n]) <= Requested(actions)
  {
    if n < |actions| {
      RequestedGrows(actions[..|actions| - 1], n);
      assert actions[..|actions| - 1][..n] == actions[..n];
    } else {
      assert actions[..n] == actions;
    }
  }

  lemma TooLateMeansCrossed(max: int, actions: seq<Action>)
    requires SentTooLate(max, actions)
    ensures Crossed(max, actions)
  {
    var i :| 0 <= i < |actions| && actions[i].Send? && Crossed(max, actions[..i]);
    RequestedGrows(actions, i);
  }

  // ---------- The whole call ----------

  /** The request line and headers the middleware looks at; a length that does not parse is -1. */
  datatype Scope = NotHttp | Http(verb: string, length: Option<int>, chunked: bool, mediaType: string)

  predicate LengthRefused(s: Scope, max: int)
  {
    s.Http? && s.length.Some? && (s.length.value < 0 || s.length.value > max)
  }

  predicate TypeRefused(s: Scope)
  {
    && s.Http?
    && s.verb in ["POST", "PUT", "PATCH"]
    && ((s.length.Some? && s.length.value > 0) || s.chunked)
    && s.mediaType != "application/json"
  }

  /** Everything an application sends, with no middleware in between. */
  ghost function AllSent(actions: seq<Action>): seq<Outgoing>
  {
    if actions == [] then []
    else
      var last := actions[|actions| - 1];
      AllSent(actions[..|actions| - 1]) + if last.Send? then [last.response] else []
  }

  /** One call, for whatever the application does. */
  method Call(max: int, scope: Scope, actions: seq<Action>, ending: Ending) returns (client: seq<Outgoing>, handed: int)
    requires max >= 0
    ensures scope.NotHttp? ==> client == AllSent(actions)
    ensures LengthRefused(scope, max) ==> client == Rejection(413) && handed == 0
    ensures !LengthRefused(scope, max) && TypeRefused(scope) ==> client == Rejection(415) && handed == 0
    ensures scope.Http? && !LengthRefused(scope, max) && !TypeRefused(scope) ==>
              client == ClientSees(max, actions, Some(ending)) && handed == Handed(max, actions)
    ensures scope.Http? && scope.length.Some? && (scope.length.value < 0 || scope.length.value > max) ==>
              client == [ResponseStart(413), ResponseBody("payload_too_large")] && handed == 0
    ensures scope.Http? && (scope.length == None || 0 <= scope.length.value <= max)
            && scope.verb in {"POST", "PUT", "PATCH"}
            && (scope.chunked || (scope.length.Some? && scope.length.value > 0))
            && scope.mediaType != "application/json" ==>
              client == [ResponseStart(415), ResponseBody("unsupported_media_type")] && handed == 0
    ensures scope.Http? && (scope.length == None || 0 <= scope.length.value <= max)
            && (scope.verb !in {"POST", "PUT", "PATCH"} || scope.mediaType == "application/json"
                || (!scope.chunked && (scope.length == None || scope.length.value == 0))) ==>
              client == ClientSees(max, actions, Some(ending)) && handed == Handed(max, actions)
  {
    RejectionIs();
    client, handed := [], 0;
    if scope.NotHttp? {
      client := PassThrough(actions);
      return;
    }
    if scope.length.Some? && (scope.length.value < 0 || scope.length.value > max) {
      return Rejection(413), 0;
    }
    var hasBody := (scope.length.Some? && scope.length.value > 0) || scope.chunked;
    if scope.verb in ["POST", "PUT", "PATCH"] && hasBody && scope.mediaType != "application/json" {
      return Rejection(415), 0;
    }
    var exchange := new Exchange(max);
    for i := 0 to |actions|
      invariant exchange.Valid() && fresh(exchange) && exchange.max == max
      invariant exchange.actions == actions[..i]
    {
      assert actions[..i + 1] == actions[..i] + [actions[i]];
      match actions[i]
      case Receive(message) =>
        var _ := exchange.BoundedReceive(message);
      case Send(response) =>
        exchange.TrackingSend(response);
    }
    assert actions[..|actions|] == actions;
    exchange.Finish(ending);
    return exchange.client, exchange.handed;
  }

  method PassThrough(actions: seq<Action>) returns (client: seq<Outgoing>)
    ensures client == AllSent(actions)
  {
    client := [];
    for i := 0 to |actions|
      invariant client == AllSent(actions[..i])
    {
      assert actions[..i + 1][..i] == actions[..i];
      if actions[i].Send? { client := client + [actions[i].response]; }
    }
    assert actions[..|actions|] == actions;
  }

  // ---------- What that means ----------

  /** The application is never given more than the ceiling in total. */
  lemma {:induction false} HandedWithinCeiling(max: int, actions: seq<Action>)
    requires max >= 0
    ensures Handed(max, actions) <= max
    ensures !Crossed(max, actions) ==> Handed(max, actions) == Requested(actions)
  {
    if actions != [] {
      var init := actions[..|actions| - 1];
      HandedWithinCeiling(max, init);
      RequestedGrows(actions, |init|);
    }
  }

  /** Below the ceiling the middleware is invisible. */
  lemma {:induction false} TransparentBelowCeiling(max: int, actions: seq<Action>, ending: Option<Ending>)
    requires Requested(actions) <= max
    ensures ClientSees(max, actions, ending) == AllSent(actions)
  {
    if actions != [] {
      var init := actions[..|actions| - 1];
      RequestedGrows(actions, |init|);
      TransparentBelowCeiling(max, init, ending);
    }
  }

  /** Once the ceiling is crossed nothing the application sends is forwarded. */
  lemma {:induction false} NothingForwardedAfterCrossing(max: int, actions: seq<Action>, n: nat)
    requires n <= |actions| && Requested(actions[..n]) > max
    ensures SentInTime(max, actions) == SentInTime(max, actions[..n]) == AllSentBefore(max, actions[..n])
  {
    if n < |actions| {
      var init := actions[..|actions| - 1];
      assert init[..n] == actions[..n];
      RequestedGrows(init, n);
      NothingForwardedAfterCrossing(max, init, n);
    } else {
      assert actions[..n] == actions;
      InTimeIsPrefix(max, actions);
    }
  }

  /** What had been sent when the ceiling was crossed. */
  ghost function AllSentBefore(max: int, actions: seq<Action>): seq<Outgoing>
    decreases |actions|
  {
    if actions == [] || !Crossed(max, actions) then AllSent(actions)
    else AllSentBefore(max, actions[..|actions| - 1])
  }

  lemma {:induction false} InTimeIsPrefix(max: int, actions: seq<Action>)
    ensures SentInTime(max, actions) == AllSentBefore(max, actions)
  {
    if actions != [] {
      if !Crossed(max, actions) {
        TransparentBelowCeiling(max, actions, None);
      } else {
        InTimeIsPrefix(max, actions[..|actions| - 1]);
      }
    }
  }

  ghost function Starts(sent: seq<Outgoing>): nat
  {
    if sent == [] then 0
    else Starts(sent[..|sent| - 1]) + if sent[|sent| - 1].ResponseStart? then 1 else 0
  }

  lemma {:induction false} StartsOfSum(a: seq<Outgoing>, b: seq<Outgoing>)
    ensures Starts(a + b) == Starts(a) + Starts(b)
  {
    if b == [] {
      assert a + b == a;
    } else {
      StartsOfSum(a, b[..|b| - 1]);
      assert (a + b)[..|a + b| - 1] == a + b[..|b| - 1];
    }
  }

  lemma {:induction false} NoStart(sent: seq<Outgoing>)
    ensures HasStart(sent) <==> Starts(sent) > 0
  {
    if sent != [] {
      var init := sent[..|sent| - 1];
      NoStart(init);
      if HasStart(init) {
        var i :| 0 <= i < |init| && init[i].ResponseStart?;
        assert sent[i].ResponseStart?;
      }
      if HasStart(sent) && !sent[|sent| - 1].ResponseStart? {
        var i :| 0 <= i < |sent| && sent[i].ResponseStart?;
        assert init[i].ResponseStart?;
      }
    }
  }

  lemma {:induction false} InTimeStartsBounded(max: int, actions: seq<Action>)
    ensures Starts(SentInTime(max, actions)) <= Starts(AllSent(actions))
  {
    if actions != [] {
      var init, last := actions[..|actions| - 1], actions[|actions| - 1];
      InTimeStartsBounded(max, init);
      var extra := if last.Send? then [last.response] else [];
      StartsOfSum(SentInTime(max, init), extra);
      StartsOfSum(AllSent(init), extra);
      assert SentInTime(max, init) + [] == SentInTime(max, init);
    }
  }

  /** An application that starts at most one response leaves the client with at most one; the
      middleware never adds a second. */
  lemma AtMostOneResponse(max: int, actions: seq<Action>, ending: Option<Ending>)
    requires Starts(AllSent(actions)) <= 1
    ensures Starts(ClientSees(max, actions, ending)) <= 1
  {
    var sent := SentInTime(max, actions);
    InTimeStartsBounded(max, actions);
    NoStart(sent);
    if RejectionDue(max, actions, ending) {
      StartsOfSum(sent, Rejection(413));
      assert Rejection(413)[..1] == [ResponseStart(413)];
      assert Starts(Rejection(413)) == 1;
    } else {
      assert sent + [] == sent;
    }
  }

  /** A crossing before any response was started, with an application that returns or lets the
      abort through, swallowed or not: exactly one response, and it is the 413. */
  lemma TooLargeIsAnswered413(max: int, actions: seq<Action>, ending: Ending)
    requires Requested(actions) > max && !HasStart(SentInTime(max, actions)) && !ending.Raises?
    ensures ClientSees(max, actions, Some(ending)) ==
              SentInTime(max, actions) + [ResponseStart(413), ResponseBody("payload_too_large")]
    ensures Starts(ClientSees(max, actions, Some(ending))) == 1
  {
    var sent := SentInTime(max, actions);
    NoStart(sent);
    StartsOfSum(sent, Rejection(413));
    assert Rejection(413)[..1] == [ResponseStart(413)];
    assert Starts(Rejection(413)) == 1;
  }

  /** When the application fails with a foreign exception of its own, the 413 is sent exactly if it
      tried to send something after the crossing. */
  lemma ForeignExceptionMayHideThe413(max: int, actions: seq<Action>)
    requires Requested(actions) > max && !HasStart(SentInTime(max, actions))
    ensures ClientSees(max, actions, Some(Raises)) ==
              SentInTime(max, actions)
              + if SentTooLate(max, actions) then [ResponseStart(413), ResponseBody("payload_too_large")] else []
    ensures HasStart(ClientSees(max, actions, Some(Raises))) <==> SentTooLate(max, actions)
  {
    var sent := SentInTime(max, actions);
    if SentTooLate(max, actions) {
      assert (sent + Rejection(413))[|sent|] == ResponseStart(413);
    } else {
      assert sent + [] == sent;
    }
  }
}
