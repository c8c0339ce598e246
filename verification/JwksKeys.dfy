/** The key set of a JWKS document, as the gateway collects and queries it.

    Only Ed25519 keys in the OKP form of section 2 of RFC 8037 are used; `kid` is the optional key
    identifier of section 4.5 of RFC 7517.  Base64 decoding is a parameter.
 */
module JwksKeys {
  import opened Options

  type Key = seq<int>

  const KEY_SIZE := 32

  datatype Jwk = Jwk(kty: string, crv: string, kid: string, x: string)

  datatype Keys = Keys(byKid: map<string, Key>, noKid: seq<Key>)

  const NO_KEYS := Keys(map[], [])

  /** The key an entry carries, if it is one the gateway can use. */
  function KeyOf(k: Jwk, decode: string -> Option<Key>): Option<Key> {
    if k.kty == "OKP" && k.crv == "Ed25519" && k.x != "" && decode(k.x).Some? && |decode(k.x).value| == KEY_SIZE
    then decode(k.x) else None
  }

  // ---------------------------------------------------------------- what a direct scan finds

  function LastWithKid(doc: seq<Jwk>, kid: string, decode: string -> Option<Key>): Option<Key> {
    if doc == [] then None
    else
      var k := doc[|doc|-1];
      if k.kid == kid && KeyOf(k, decode).Some? then KeyOf(k, decode) else LastWithKid(doc[..|doc|-1], kid, decode)
  }

  function FirstWithoutKid(doc: seq<Jwk>, decode: string -> Option<Key>): Option<Key> {
    if doc == [] then None
    else if doc[0].kid == "" && KeyOf(doc[0], decode).Some? then KeyOf(doc[0], decode)
    else FirstWithoutKid(doc[1..], decode)
  }

  /** The last usable entry with the identifier, or the first usable entry that has none. */
  function Scan(doc: seq<Jwk>, kid: string, decode: string -> Option<Key>): Option<Key> {
    if kid != "" then LastWithKid(doc, kid, decode) else FirstWithoutKid(doc, decode)
  }

  // ---------------------------------------------------------------- collecting into tables

  function Add(keys: Keys, k: Jwk, decode: string -> Option<Key>): Keys {
    match KeyOf(k, decode)
    case None => keys
    case Some(key) =>
      if k.kid != "" then keys.(byKid := keys.byKid[k.kid := key]) else keys.(noKid := keys.noKid + [key])
  }

  function Collect(doc: seq<Jwk>, decode: string -> Option<Key>): Keys {
    if doc == [] then NO_KEYS else Add(Collect(doc[..|doc|-1], decode), doc[|doc|-1], decode)
  }

  function Lookup(keys: Keys, kid: string): Option<Key> {
    if kid != "" then (if kid in keys.byKid then Some(keys.byKid[kid]) else None)
    else if keys.noKid != [] then Some(keys.noKid[0]) else None
  }

  lemma {:induction false} FirstSnoc(doc: seq<Jwk>, k: Jwk, decode: string -> Option<Key>)
    ensures FirstWithoutKid(doc + [k], decode)
            == if FirstWithoutKid(doc, decode).Some? then FirstWithoutKid(doc, decode)
               else if k.kid == "" then KeyOf(k, decode) else None
  {
    if doc == [] {
      assert ([] + [k])[1..] == [];
    } else {
      assert (doc + [k])[1..] == doc[1..] + [k];
      FirstSnoc(doc[1..], k, decode);
    }
  }

  /** The tables answer every query as a direct scan of the document would. */
  lemma {:induction false} LookupIsScan(doc: seq<Jwk>, kid: string, decode: string -> Option<Key>)
    ensures Lookup(Collect(doc, decode), kid) == Scan(doc, kid, decode)
  {
    if doc != [] {
      var front, k := doc[..|doc|-1], doc[|doc|-1];
      LookupIsScan(front, kid, decode);
      FirstSnoc(front, k, decode);
      assert doc == front + [k];
    }
  }

  // ---------------------------------------------------------------- which entry answers

  /** An Ed25519 key of 32 bytes in the OKP form. */
  predicate Qualifies(k: Jwk, decode: string -> Option<Key>) {
    && k.kty == "OKP" && k.crv == "Ed25519" && k.x != ""
    && decode(k.x).Some? && |decode(k.x).value| == 32
  }

  predicate Candidate(k: Jwk, kid: string, decode: string -> Option<Key>) {
    k.kid == kid && Qualifies(k, decode)
  }

  /** No entry from `lo` up to `hi` is a candidate. */
  predicate NoneBetween(doc: seq<Jwk>, kid: string, decode: string -> Option<Key>, lo: nat, hi: nat)
    requires hi <= |doc|
  {
    forall j :: lo <= j < hi ==> !Candidate(doc[j], kid, decode)
  }

  predicate IsLast(doc: seq<Jwk>, kid: string, decode: string -> Option<Key>, i: nat) {
    i < |doc| && Candidate(doc[i], kid, decode) && NoneBetween(doc, kid, decode, i + 1, |doc|)
  }

  predicate IsFirst(doc: seq<Jwk>, kid: string, decode: string -> Option<Key>, i: nat) {
    i < |doc| && Candidate(doc[i], kid, decode) && NoneBetween(doc, kid, decode, 0, i)
  }

  lemma QualifiesIsKey(k: Jwk, decode: string -> Option<Key>)
    ensures KeyOf(k, decode) == if Qualifies(k, decode) then decode(k.x) else None
  {
  }

  lemma {:induction false} LastIsThere(doc: seq<Jwk>, kid: string, decode: string -> Option<Key>) returns (i: nat)
    ensures if LastWithKid(doc, kid, decode).None? then NoneBetween(doc, kid, decode, 0, |doc|)
            else IsLast(doc, kid, decode, i) && LastWithKid(doc, kid, decode) == decode(doc[i].x)
  {
    i := 0;
    if doc != [] {
      var n := |doc| - 1;
      QualifiesIsKey(doc[n], decode);
      if Candidate(doc[n], kid, decode) {
        i := n;
      } else {
        i := LastIsThere(doc[..n], kid, decode);
        assert forall j :: 0 <= j < n ==> doc[..n][j] == doc[j];
      }
    }
  }

  lemma {:induction false} FirstIsThere(doc: seq<Jwk>, decode: string -> Option<Key>) returns (i: nat)
    ensures if FirstWithoutKid(doc, decode).None? then NoneBetween(doc, "", decode, 0, |doc|)
            else IsFirst(doc, "", decode, i) && FirstWithoutKid(doc, decode) == decode(doc[i].x)
  {
    i := 0;
    if doc != [] {
      QualifiesIsKey(doc[0], decode);
      if !Candidate(doc[0], "", decode) {
        i := FirstIsThere(doc[1..], decode);
        i := i + 1;
        assert forall j :: 1 <= j < |doc| ==> doc[1..][j - 1] == doc[j];
      }
    }
  }

  lemma {:induction false} LastWins(doc: seq<Jwk>, kid: string, decode: string -> Option<Key>, j: nat)
    requires IsLast(doc, kid, decode, j)
    ensures LastWithKid(doc, kid, decode) == decode(doc[j].x)
  {
    var i := LastIsThere(doc, kid, decode);
    assert Candidate(doc[j], kid, decode);
    assert LastWithKid(doc, kid, decode).Some? ==> !(i < j) && !(j < i);
  }

  lemma {:induction false} FirstWins(doc: seq<Jwk>, decode: string -> Option<Key>, j: nat)
    requires IsFirst(doc, "", decode, j)
    ensures FirstWithoutKid(doc, decode) == decode(doc[j].x)
  {
    var i := FirstIsThere(doc, decode);
    assert Candidate(doc[j], "", decode);
    assert FirstWithoutKid(doc, decode).Some? ==> !(i < j) && !(j < i);
  }

  /** A query by identifier is answered by the last Ed25519 entry that has it, and by nothing exactly when there is
      none. */
  lemma {:induction false} KidFindsLast(doc: seq<Jwk>, kid: string, decode: string -> Option<Key>, key: Key)
    requires kid != ""
    ensures Lookup(Collect(doc, decode), kid) == Some(key) <==>
              exists i: nat :: IsLast(doc, kid, decode, i) && decode(doc[i].x) == Some(key)
    ensures Lookup(Collect(doc, decode), kid) == None <==> NoneBetween(doc, kid, decode, 0, |doc|)
  {
    LookupIsScan(doc, kid, decode);
    var i := LastIsThere(doc, kid, decode);
    if exists j: nat :: IsLast(doc, kid, decode, j) && decode(doc[j].x) == Some(key) {
      var j: nat :| IsLast(doc, kid, decode, j) && decode(doc[j].x) == Some(key);
      LastWins(doc, kid, decode, j);
    }
    if LastWithKid(doc, kid, decode) == Some(key) {
      assert IsLast(doc, kid, decode, i) && decode(doc[i].x) == Some(key);
    }
  }

  /** A query without one is answered by the first Ed25519 entry that has none either. */
  lemma {:induction false} NoKidFindsFirst(doc: seq<Jwk>, decode: string -> Option<Key>, key: Key)
    ensures Lookup(Collect(doc, decode), "") == Some(key) <==>
              exists i: nat :: IsFirst(doc, "", decode, i) && decode(doc[i].x) == Some(key)
    ensures Lookup(Collect(doc, decode), "") == None <==> NoneBetween(doc, "", decode, 0, |doc|)
  {
    LookupIsScan(doc, "", decode);
    var i := FirstIsThere(doc, decode);
    if exists j: nat :: IsFirst(doc, "", decode, j) && decode(doc[j].x) == Some(key) {
      var j: nat :| IsFirst(doc, "", decode, j) && decode(doc[j].x) == Some(key);
      FirstWins(doc, decode, j);
    }
    if FirstWithoutKid(doc, decode) == Some(key) {
      assert IsFirst(doc, "", decode, i) && decode(doc[i].x) == Some(key);
    }
  }

  method CollectKeys(doc: seq<Jwk>, decode: string -> Option<Key>) returns (keys: Keys)
    ensures keys == Collect(doc, decode)
    ensures forall kid :: Lookup(keys, kid) == Scan(doc, kid, decode)
  {
    var byKid: map<string, Key>, noKid: seq<Key> := map[], [];
    for i := 0 to |doc|
      invariant Keys(byKid, noKid) == Collect(doc[..i], decode)
    {
      var key := doc[i];
      assert doc[..i+1][..i] == doc[..i];
      if key.kty != "OKP" || key.crv != "Ed25519" || key.x == "" {
        continue;
      }
      var raw := decode(key.x);
      if raw.None? {
        continue;
      }
      if |raw.value| != KEY_SIZE {
        continue;
      }
      if key.kid != "" {
        byKid := byKid[key.kid := raw.value];
      } else {
        noKid := noKid + [raw.value];
      }
    }
    assert doc[..|doc|] == doc;
    keys := Keys(byKid, noKid);
    forall kid
      ensures Lookup(keys, kid) == Scan(doc, kid, decode)
    {
      LookupIsScan(doc, kid, decode);
    }
  }

  predicate Stale(now: int, expiresAt: Option<int>) {
    expiresAt.None? || now > expiresAt.value
  }

  /** The cache itself, used by one caller at a time. */
  class Cache {
    var keys: Keys
    var expiresAt: Option<int>

    constructor ()
      ensures keys == NO_KEYS && expiresAt == None
    {
      keys, expiresAt := NO_KEYS, None;
    }

    /** `fetched` is the decoded document, or nothing if the request or the decoding failed. */
    method Refresh(fetched: Option<seq<Jwk>>, clock: int, ttl: int, decode: string -> Option<Key>) returns (ok: bool)
      modifies this
      ensures ok == fetched.Some?
      ensures ok ==> keys == Collect(fetched.value, decode) && expiresAt == Some(clock + ttl)
      ensures !ok ==> keys == old(keys) && expiresAt == old(expiresAt)
    {
      if fetched.None? {
        return false;
      }
      keys := CollectKeys(fetched.value, decode);
      expiresAt := Some(clock + ttl);
      ok := true;
    }

    method Resolve(url: string, kid: string, now: int, fetched: Option<seq<Jwk>>, clock: int, ttl: int,
                   decode: string -> Option<Key>) returns (r: Option<Key>)
      modifies this
      ensures url == "" || (Stale(now, old(expiresAt)) && fetched.None?)
              ==> r == None && keys == old(keys) && expiresAt == old(expiresAt)
      ensures url != "" && !Stale(now, old(expiresAt))
              ==> r == Lookup(old(keys), kid) && keys == old(keys) && expiresAt == old(expiresAt)
      ensures url != "" && Stale(now, old(expiresAt)) && fetched.Some?
              ==> r == Scan(fetched.value, kid, decode)
                  && keys == Collect(fetched.value, decode) && expiresAt == Some(clock + ttl)
    {
      if url == "" {
        return None;
      }
      if expiresAt.None? || now > expiresAt.value {
        var ok := Refresh(fetched, clock, ttl, decode);
        if !ok {
          return None;
        }
        LookupIsScan(fetched.value, kid, decode);
      }
      r := Lookup(keys, kid);
    }
  }
}
