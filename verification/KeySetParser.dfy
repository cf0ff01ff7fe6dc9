/** `JwksClient._parse`: one pass over a JSON Web Key Set (sections 4 and 5 of RFC 7517) that
    either refuses the whole document or returns its signing keys by `kid`. */
module KeySetParsing {
  import opened Wrappers

  const JWKS_MAX_KEYS := 16
  const MAX_KID_CHARS := 128

  /** A JSON member as the parser tests it: absent, a string, or any other JSON value. */
  datatype Member = Absent | Text(s: string) | OtherJson

  /** `material` stands for what `PyJWK.from_dict` builds, `None` when it raises. */
  datatype Key = Key(id: nat)
  datatype Entry =
    | NotAnObject
    | Object(kid: Member, use: Member, kty: Member, material: Option<Key>)

  /** `NoKeyList` covers a document that is not an object or whose `keys` is not a list. */
  datatype Document = NoKeyList | KeyList(entries: seq<Entry>)

  predicate UsableKid(e: Entry)
  {
    e.Object? && e.kid.Text? && 0 < |e.kid.s| <= MAX_KID_CHARS
  }

  /** A missing `use` counts as "sig"; JSON null or any other value does not. */
  predicate Signing(e: Entry)
  {
    && e.Object?
    && (e.use == Absent || e.use == Text("sig"))
    && (e.kty == Text("RSA") || e.kty == Text("EC"))
  }

  /** What the parser demands of one entry on its own. */
  predicate WellFormed(e: Entry)
  {
    UsableKid(e) && (Signing(e) ==> e.material.Some?)
  }

  ghost predicate SameKid(entries: seq<Entry>, i: int, j: int)
  {
    && 0 <= i < j < |entries|
    && entries[i].Object? && entries[j].Object? && entries[i].kid == entries[j].kid
  }

  /** Entry `j` claims the `kid` of an earlier signing entry. */
  ghost predicate Clashes(entries: seq<Entry>, i: int, j: int)
  {
    SameKid(entries, i, j) && Signing(entries[i])
  }

  ghost predicate ClashFree(entries: seq<Entry>)
  {
    forall i, j :: 0 <= i < j < |entries| ==> !Clashes(entries, i, j)
  }

  /** The right number of entries, each acceptable on its own. */
  ghost predicate WellShaped(entries: seq<Entry>)
  {
    1 <= |entries| <= JWKS_MAX_KEYS && AllWellFormed(entries)
  }

  ghost predicate Acceptable(entries: seq<Entry>)
  {
    WellShaped(entries) && ClashFree(entries)
  }

  /** `m` holds every signing entry under its own `kid`, and nothing else. */
  ghost predicate HoldsExactly(m: map<string, Key>, entries: seq<Entry>)
  {
    && (forall i :: 0 <= i < |entries| && Signing(entries[i]) && WellFormed(entries[i]) ==>
          entries[i].kid.s in m && m[entries[i].kid.s] == entries[i].material.value)
    && (forall k :: k in m ==>
          exists i :: 0 <= i < |entries| && Signing(entries[i]) && entries[i].kid == Text(k))
  }

  ghost function SigningCount(entries: seq<Entry>): nat
  {
    if entries == [] then 0
    else SigningCount(entries[..|entries| - 1]) + if Signing(entries[|entries| - 1]) then 1 else 0
  }

  ghost predicate AllWellFormed(entries: seq<Entry>)
  {
    forall i :: 0 <= i < |entries| ==> WellFormed(entries[i])
  }

  /** One row for each signing entry. */
  ghost predicate Counted(table: map<string, Key>, entries: seq<Entry>)
  {
    |table| == SigningCount(entries) <= |entries|
  }

  /** The document is accepted if and only if `Acceptable`; an accepted document yields exactly
      its signing entries, one table row each, so no two of them share a `kid`. "A repeated `kid`
      refuses the whole set" is true of repeats of a signing entry, and of no others. */
  method Parse(document: Document) returns (parsed: Option<map<string, Key>>)
    ensures parsed.Some? <==> document.KeyList? && Acceptable(document.entries)
    ensures parsed.Some? ==>
              && HoldsExactly(parsed.value, document.entries)
              && |parsed.value| == SigningCount(document.entries) <= JWKS_MAX_KEYS
    ensures document.KeyList? && WellShaped(document.entries) ==>
              (parsed.None? <==> RepeatsSigningKid(document.entries))
    ensures parsed.Some? ==> OnlyIgnoredRepeated(document.entries)
  {
    hide Acceptable, WellShaped, AllWellFormed, ClashFree, HoldsExactly, Counted, SigningCount,
      RepeatsSigningKid, OnlyIgnoredRepeated, Signing;
    if document.NoKeyList? {
      return None;
    }
    var entries := document.entries;
    DuplicatesRefusedIff(entries);
    if entries == [] || |entries| > JWKS_MAX_KEYS {
      WrongLengthRefused(entries);
      return None;
    }
    var table: map<string, Key> := map[];
    var n := 0;
    NothingParsed(entries);
    while n < |entries|
      invariant 0 <= n <= |entries|
      invariant AllWellFormed(entries[..n])
      invariant ClashFree(entries[..n])
      invariant HoldsExactly(table, entries[..n])
      invariant Counted(table, entries[..n])
    {
      var entry := entries[n];
      if !UsableKid(entry) {
        RefusedAt(entries, n);
        return None;
      }
      var kid := entry.kid.s;
      if kid in table {
        ClashFound(entries, n, table);
        return None;
      }
      if Signing(entry) && entry.material.None? {
        RefusedAt(entries, n);
        return None;
      }
      OneMoreWellFormed(entries, n);
      StaysClashFree(entries, n, table);
      if Signing(entry) {
        TableExtended(entries, n, table);
        RowCounted(entries, n, table);
        table := table[kid := entry.material.value];
      } else {
        TableKept(entries, n, table);
        NoRowCounted(entries, n, table);
      }
      n := n + 1;
    }
    AllParsed(entries, table);
    return Some(table);
  }

  lemma NothingParsed(entries: seq<Entry>)
    ensures AllWellFormed(entries[..0]) && ClashFree(entries[..0])
    ensures HoldsExactly(map[], entries[..0]) && Counted(map[], entries[..0])
  {
  }

  lemma OneMoreWellFormed(entries: seq<Entry>, n: nat)
    requires n < |entries| && AllWellFormed(entries[..n]) && WellFormed(entries[n])
    ensures AllWellFormed(entries[..n + 1])
  {
    assert entries[..n + 1] == entries[..n] + [entries[n]];
  }

  lemma WrongLengthRefused(entries: seq<Entry>)
    requires entries == [] || |entries| > JWKS_MAX_KEYS
    ensures !WellShaped(entries) && !Acceptable(entries)
  {
  }

  lemma RefusedAt(entries: seq<Entry>, n: nat)
    requires n < |entries| && !WellFormed(entries[n])
    ensures !Acceptable(entries)
  {
  }

  lemma AllParsed(entries: seq<Entry>, table: map<string, Key>)
    requires AllWellFormed(entries[..|entries|]) && ClashFree(entries[..|entries|])
    requires HoldsExactly(table, entries[..|entries|]) && Counted(table, entries[..|entries|])
    requires 1 <= |entries| <= JWKS_MAX_KEYS
    ensures Acceptable(entries) && HoldsExactly(table, entries)
    ensures |table| == SigningCount(entries) <= JWKS_MAX_KEYS && OnlyIgnoredRepeated(entries)
  {
    assert entries[..|entries|] == entries;
    OnlyIgnoredRepeatedIff(entries);
    hide AllWellFormed, ClashFree, HoldsExactly, SigningCount, OnlyIgnoredRepeated;
  }

  lemma SigningCounted(entries: seq<Entry>, n: nat)
    requires n < |entries|
    ensures SigningCount(entries[..n + 1]) == SigningCount(entries[..n]) + if Signing(entries[n]) then 1 else 0
  {
    hide Signing;
    assert entries[..n + 1][..n] == entries[..n];
  }

  lemma RowCounted(entries: seq<Entry>, n: nat, table: map<string, Key>)
    requires n < |entries| && WellFormed(entries[n]) && Signing(entries[n])
    requires Counted(table, entries[..n]) && entries[n].kid.s !in table
    ensures Counted(table[entries[n].kid.s := entries[n].material.value], entries[..n + 1])
  {
    SigningCounted(entries, n);
    hide SigningCount;
  }

  lemma NoRowCounted(entries: seq<Entry>, n: nat, table: map<string, Key>)
    requires n < |entries| && !Signing(entries[n]) && Counted(table, entries[..n])
    ensures Counted(table, entries[..n + 1])
  {
    SigningCounted(entries, n);
    hide SigningCount;
  }

  lemma TableExtended(entries: seq<Entry>, n: nat, table: map<string, Key>)
    requires n < |entries| && WellFormed(entries[n]) && Signing(entries[n])
    requires HoldsExactly(table, entries[..n]) && entries[n].kid.s !in table
    ensures HoldsExactly(table[entries[n].kid.s := entries[n].material.value], entries[..n + 1])
  {
    var table' := table[entries[n].kid.s := entries[n].material.value];
    var shorter, longer := entries[..n], entries[..n + 1];
    assert longer == shorter + [entries[n]];
    forall k | k in table'
      ensures exists i :: 0 <= i < |longer| && Signing(longer[i]) && longer[i].kid == Text(k)
    {
      if k in table {
        var i :| 0 <= i < n && Signing(shorter[i]) && shorter[i].kid == Text(k);
        assert longer[i] == shorter[i];
      } else {
        assert longer[n] == entries[n];
      }
    }
  }

  lemma TableKept(entries: seq<Entry>, n: nat, table: map<string, Key>)
    requires n < |entries| && !Signing(entries[n])
    requires HoldsExactly(table, entries[..n])
    ensures HoldsExactly(table, entries[..n + 1])
  {
    var shorter, longer := entries[..n], entries[..n + 1];
    assert longer == shorter + [entries[n]];
    forall k | k in table
      ensures exists i :: 0 <= i < |longer| && Signing(longer[i]) && longer[i].kid == Text(k)
    {
      var i :| 0 <= i < n && Signing(shorter[i]) && shorter[i].kid == Text(k);
      assert longer[i] == shorter[i];
    }
  }

  lemma ClashFound(entries: seq<Entry>, n: nat, table: map<string, Key>)
    requires n < |entries| && UsableKid(entries[n])
    requires HoldsExactly(table, entries[..n]) && entries[n].kid.s in table
    ensures !Acceptable(entries)
  {
    var i :| 0 <= i < n && Signing(entries[..n][i]) && entries[..n][i].kid == Text(entries[n].kid.s);
    assert Clashes(entries, i, n);
  }

  lemma StaysClashFree(entries: seq<Entry>, n: nat, table: map<string, Key>)
    requires n < |entries| && UsableKid(entries[n])
    requires AllWellFormed(entries[..n])
    requires ClashFree(entries[..n]) && HoldsExactly(table, entries[..n]) && entries[n].kid.s !in table
    ensures ClashFree(entries[..n + 1])
  {
    hide Signing;
    var longer := entries[..n + 1];
    forall i, j | 0 <= i < j < |longer| ensures !Clashes(longer, i, j) {
      assert longer[i] == entries[..n][i];
      if j < n {
        assert longer[j] == entries[..n][j];
        assert !Clashes(entries[..n], i, j);
      }
    }
  }

  // ---------- The rules, on the members of the document ----------

  /** The entry offers a signing key: `use` absent or "sig", `kty` "RSA" or "EC". */
  predicate OffersKey(e: Entry, kid: string, material: Option<Key>)
  {
    && e.Object? && e.kid == Text(kid) && e.material == material
    && e.use in {Absent, Text("sig")} && e.kty in {Text("RSA"), Text("EC")}
  }

  /** What is accepted: 1 to 16 objects, each with a `kid` of 1 to 128 characters, each that offers a
      key with usable material, and none with the `kid` of an earlier one that offers a key. */
  lemma AcceptableMeans(entries: seq<Entry>)
    ensures Acceptable(entries) <==>
            && 1 <= |entries| <= 16
            && (forall i :: 0 <= i < |entries| ==>
                  && entries[i].Object? && entries[i].kid.Text? && 1 <= |entries[i].kid.s| <= 128
                  && !OffersKey(entries[i], entries[i].kid.s, None))
            && (forall i, j :: 0 <= i < j < |entries| && entries[i].kid == entries[j].kid ==>
                  !OffersKey(entries[i], entries[i].kid.s, entries[i].material))
  {
    hide SigningCount;
    forall e: Entry | UsableKid(e) ensures Signing(e) <==> OffersKey(e, e.kid.s, e.material) { }
    if Acceptable(entries) {
      forall i, j | 0 <= i < j < |entries| && entries[i].kid == entries[j].kid
        ensures !OffersKey(entries[i], entries[i].kid.s, entries[i].material)
      {
        assert WellFormed(entries[i]) && !Clashes(entries, i, j);
      }
    }
  }

  /** Some entry offers `key` under `kid`. */
  ghost predicate Offered(entries: seq<Entry>, kid: string, key: Key)
  {
    exists i :: 0 <= i < |entries| && OffersKey(entries[i], kid, Some(key))
  }

  lemma SigningOffers(e: Entry, kid: string)
    requires WellFormed(e)
    ensures Signing(e) && e.kid == Text(kid) ==> e.material.Some? && OffersKey(e, kid, e.material)
    ensures forall key :: OffersKey(e, kid, Some(key)) ==> Signing(e) && e.kid.s == kid && e.material == Some(key)
  {
  }

  /** The keys of an accepted document: under each `kid` the material of the entry that offers it. */
  lemma HoldsExactlyMeans(m: map<string, Key>, entries: seq<Entry>, kid: string, key: Key)
    requires Acceptable(entries) && HoldsExactly(m, entries)
    ensures kid in m && m[kid] == key <==> Offered(entries, kid, key)
  {
    hide OffersKey, ClashFree;
    if kid in m && m[kid] == key {
      var i :| 0 <= i < |entries| && Signing(entries[i]) && entries[i].kid == Text(kid);
      SigningOffers(entries[i], kid);
    }
    if Offered(entries, kid, key) {
      var i :| 0 <= i < |entries| && OffersKey(entries[i], kid, Some(key));
      SigningOffers(entries[i], kid);
    }
  }

  // ---------- Repeated key ids ----------

  /** A signing entry is followed by an entry of its own `kid`. */
  ghost predicate RepeatsSigningKid(entries: seq<Entry>)
  {
    exists i, j :: Clashes(entries, i, j)
  }

  /** Of the well-shaped documents exactly those are refused that repeat the `kid` of a signing
      entry. */
  lemma DuplicatesRefusedIff(entries: seq<Entry>)
    ensures WellShaped(entries) ==> (!Acceptable(entries) <==> RepeatsSigningKid(entries))
  {
    if i, j :| Clashes(entries, i, j) {
      assert !ClashFree(entries);
    }
  }

  /** A document may still repeat a `kid`, but only after entries that are ignored. */
  ghost predicate OnlyIgnoredRepeated(entries: seq<Entry>)
  {
    forall i, j :: SameKid(entries, i, j) ==> !Signing(entries[i])
  }

  lemma OnlyIgnoredRepeatedIff(entries: seq<Entry>)
    ensures OnlyIgnoredRepeated(entries) <==> ClashFree(entries)
  {
    if OnlyIgnoredRepeated(entries) {
      forall i, j | 0 <= i < j < |entries| ensures !Clashes(entries, i, j) {
        assert SameKid(entries, i, j) ==> !Signing(entries[i]);
      }
    } else {
      var i, j :| SameKid(entries, i, j) && Signing(entries[i]);
      assert Clashes(entries, i, j);
    }
  }

  /** The order of the entries decides: an encryption key listed before the signing key of the
      same `kid` is harmless, the same two entries the other way round refuse the set. */
  lemma DuplicateKidDependsOnOrder(k: Key)
    ensures var sig := Object(Text("a"), Absent, Text("RSA"), Some(k));
            var enc := Object(Text("a"), Text("enc"), Text("RSA"), Some(k));
            Acceptable([enc, sig]) && !Acceptable([sig, enc])
  {
    var sig := Object(Text("a"), Absent, Text("RSA"), Some(k));
    var enc := Object(Text("a"), Text("enc"), Text("RSA"), Some(k));
    assert Text("enc") != Text("sig") by { assert "enc"[0] != "sig"[0]; }
    assert Clashes([sig, enc], 0, 1);
  }
}
