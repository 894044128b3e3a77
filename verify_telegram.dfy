/** Validation of the init data a Telegram Mini App hands to the backend, following the
    Telegram Bot API procedure "Validating data received via the Mini App": the
    data-check string is every received field except `hash`, written `key=value`, sorted
    and joined with line feeds; its HMAC-SHA-256 under the key HMAC-SHA-256("WebAppData",
    botToken), in hexadecimal, must equal the received `hash`. */
module VerifyTelegram {
  import opened Common
  import opened StringOrder

  /** A decoded query-string field: (key, value). */
  type Pair = (string, string)

  type Bytes = seq<bv8>

  /** The primitives the check relies on, left abstract: HMAC-SHA-256 (key, message),
      the UTF-8 encoding of a string, and lower-case hexadecimal rendering. */
  datatype Crypto = Crypto(hmac: (Bytes, Bytes) -> Bytes, utf8: string -> Bytes, hex: Bytes -> string)

  const HashKey: string := "hash"

  function Format(p: Pair): string
  {
    p.0 + "=" + p.1
  }

  /** The entries pushed for the first fields, in input order. */
  function Entries(ps: seq<Pair>): (r: seq<string>)
    ensures |r| <= |ps|
    ensures forall k :: 0 <= k < |r| ==> exists p :: p in ps && p.0 != HashKey && r[k] == Format(p)
  {
    if ps == [] then []
    else
      var last := ps[|ps| - 1];
      Entries(ps[..|ps| - 1]) + if last.0 != HashKey then [Format(last)] else []
  }

  /** The line-feed join of `Array.prototype.join("\n")`. */
  function Join(s: seq<string>): (r: string)
    ensures |s| >= 1 ==> s[0] <= r
    ensures |s| >= 2 ==> s[0] + "\n" <= r
  {
    if s == [] then ""
    else if |s| == 1 then s[0]
    else s[0] + "\n" + Join(s[1..])
  }

  /** The inverse of Join for entries without line feeds: cut at every line feed. */
  function Split(t: string): (r: seq<string>)
    ensures |r| >= 1
  {
    if t == [] then [""]
    else
      var rest := Split(t[1..]);
      if t[0] == '\n' then [""] + rest else [[t[0]] + rest[0]] + rest[1..]
  }

  function DataCheckString(ps: seq<Pair>): string
  {
    Join(Sort(Entries(ps)))
  }

  /** The hash `crypto.createHmac` yields for the data-check string, in hexadecimal. */
  function ExpectedHash(ps: seq<Pair>, botToken: string, c: Crypto): string
  {
    var secretKey := c.hmac(c.utf8("WebAppData"), c.utf8(botToken));
    c.hex(c.hmac(secretKey, c.utf8(DataCheckString(ps))))
  }

  /** `URLSearchParams.get("hash")`: the value of the first field named `hash`, if any. */
  function HashParam(ps: seq<Pair>): (r: Option<string>)
    ensures r.None? <==> forall p :: p in ps ==> p.0 != HashKey
    ensures r.Some? ==> exists i :: 0 <= i < |ps| && ps[i] == (HashKey, r.value)
                                    && forall j :: 0 <= j < i ==> ps[j].0 != HashKey
  {
    if ps == [] then None
    else if ps[0].0 == HashKey then Some(ps[0].1)
    else
      assert ps == [ps[0]] + ps[1..];
      var r := HashParam(ps[1..]);
      assert r.Some? ==> exists i :: 0 <= i < |ps| && ps[i] == (HashKey, r.value)
                                  && forall j :: 0 <= j < i ==> ps[j].0 != HashKey by {
        if r.Some? {
          var i :| 0 <= i < |ps[1..]| && ps[1..][i] == (HashKey, r.value)
                   && forall j :: 0 <= j < i ==> ps[1..][j].0 != HashKey;
          assert ps[i + 1] == (HashKey, r.value);
          assert forall j :: 0 <= j < i + 1 ==> ps[j].0 != HashKey by {
            forall j | 0 <= j < i + 1 ensures ps[j].0 != HashKey {
              if j > 0 { assert ps[j] == ps[1..][j - 1]; }
            }
          }
        }
      }
      r
  }

  /** verifyTelegramAuth: builds the entries field by field, sorts them, joins them and
      compares the HMAC of the result with the received hash. */
  method VerifyTelegramAuth(ps: seq<Pair>, botToken: string, c: Crypto) returns (ok: bool)
    ensures ok <==> HashParam(ps) == Some(ExpectedHash(ps, botToken, c))
    ensures (forall p :: p in ps ==> p.0 != HashKey) ==> !ok
  {
    var dataCheckArr: seq<string> := [];
    var i := 0;
    while i < |ps|
      invariant 0 <= i <= |ps|
      invariant dataCheckArr == Entries(ps[..i])
    {
      var key, val := ps[i].0, ps[i].1;
      if key != HashKey {
        dataCheckArr := dataCheckArr + [key + "=" + val];
      }
      assert ps[..i + 1][..i] == ps[..i];
      i := i + 1;
    }
    assert ps[..i] == ps;
    dataCheckArr := Sort(dataCheckArr);
    var dataCheckString := Join(dataCheckArr);
    var secretKey := c.hmac(c.utf8("WebAppData"), c.utf8(botToken));
    var hash := c.hex(c.hmac(secretKey, c.utf8(dataCheckString)));
    var hashFromTelegram := HashParam(ps);
    ok := hashFromTelegram == Some(hash);
  }

  /** An entry is produced exactly for the fields not named `hash`. */
  lemma {:induction false} EntriesMembership(ps: seq<Pair>, s: string)
    ensures s in Entries(ps) <==> exists p :: p in ps && p.0 != HashKey && Format(p) == s
  {
    if ps != [] {
      var init := ps[..|ps| - 1];
      EntriesMembership(init, s);
      assert ps == init + [ps[|ps| - 1]];
      assert forall p :: p in ps <==> p in init || p == ps[|ps| - 1];
    }
  }

  /** One entry per field: nothing is dropped unless some field is named `hash`. */
  lemma {:induction false} EntriesCount(ps: seq<Pair>)
    ensures |Entries(ps)| <= |ps|
    ensures |Entries(ps)| == |ps| <==> forall p :: p in ps ==> p.0 != HashKey
  {
    if ps != [] {
      var init := ps[..|ps| - 1];
      EntriesCount(init);
      assert ps == init + [ps[|ps| - 1]];
      assert forall p :: p in ps <==> p in init || p == ps[|ps| - 1];
    }
  }

  lemma {:induction false} EntriesAppend(a: seq<Pair>, b: seq<Pair>)
    ensures Entries(a + b) == Entries(a) + Entries(b)
    decreases |b|
  {
    if b == [] {
      assert a + b == a;
    } else {
      var binit := b[..|b| - 1];
      EntriesAppend(a, binit);
      assert (a + b)[..|a + b| - 1] == a + binit;
    }
  }

  /** The positions of the fields that produce the entry `s`. */
  ghost function Producers(ps: seq<Pair>, s: string): set<int>
  {
    set i | 0 <= i < |ps| && ps[i].0 != HashKey && Format(ps[i]) == s
  }

  /** Appending a field adds its own position, if it produces `s`, to the earlier ones. */
  lemma ProducersSnoc(ps: seq<Pair>, s: string)
    requires ps != []
    ensures var n := |ps| - 1;
            Producers(ps, s) == Producers(ps[..n], s)
                                + if ps[n].0 != HashKey && Format(ps[n]) == s then {n} else {}
  {
    var n := |ps| - 1;
    var init := ps[..n];
    forall i | 0 <= i < n
      ensures i in Producers(ps, s) <==> i in Producers(init, s)
    {
      assert ps[i] == init[i];
    }
  }

  /** Every field not named `hash` yields exactly one entry: an entry occurs as often as there
      are such fields written that way. */
  lemma {:induction false} EntriesMultiplicity(ps: seq<Pair>, s: string)
    ensures multiset(Entries(ps))[s] == |Producers(ps, s)|
  {
    if ps == [] {
      assert Producers(ps, s) == {};
    } else {
      var n := |ps| - 1;
      var init, last := ps[..n], ps[n];
      EntriesMultiplicity(init, s);
      ProducersSnoc(ps, s);
      assert n !in Producers(init, s);
      var tail := if last.0 != HashKey then [Format(last)] else [];
      assert Entries(ps) == Entries(init) + tail;
      assert multiset(Entries(ps)) == multiset(Entries(init)) + multiset(tail);
    }
  }

  /** Reordering the fields does not change the multiset of entries. */
  lemma {:induction false} EntriesPermutation(ps: seq<Pair>, qs: seq<Pair>)
    requires multiset(ps) == multiset(qs)
    ensures multiset(Entries(ps)) == multiset(Entries(qs))
    decreases |ps|
  {
    if ps == [] {
      assert |multiset(qs)| == 0;
    } else {
      var x := ps[0];
      assert x in multiset(qs);
      var k :| 0 <= k < |qs| && qs[k] == x;
      var before, after := qs[..k], qs[k + 1..];
      assert qs == before + [x] + after;
      assert ps == [x] + ps[1..];
      assert multiset(qs) == multiset(before) + multiset{x} + multiset(after);
      assert multiset(ps) == multiset{x} + multiset(ps[1..]);
      assert multiset(before + after) == multiset(before) + multiset(after);
      assert multiset(ps[1..]) == multiset(ps) - multiset{x};
      assert multiset(qs) - multiset{x} == multiset(before) + multiset(after);
      assert multiset(ps[1..]) == multiset(before + after);
      EntriesPermutation(ps[1..], before + after);
      EntriesAppend([x], ps[1..]);
      EntriesAppend(before, after);
      EntriesAppend(before + [x], after);
      EntriesAppend(before, [x]);
    }
  }

  /** The data-check string does not depend on the order in which the fields arrive. */
  lemma DataCheckStringOrderIndependent(ps: seq<Pair>, qs: seq<Pair>)
    requires multiset(ps) == multiset(qs)
    ensures DataCheckString(ps) == DataCheckString(qs)
  {
    EntriesPermutation(ps, qs);
    SortPermutationInvariant(Entries(ps), Entries(qs));
  }

  /** Join writes separators only between entries, never after the last one. */
  lemma {:induction false} JoinSnoc(s: seq<string>, x: string)
    ensures Join(s + [x]) == if s == [] then x else Join(s) + "\n" + x
    decreases |s|
  {
    if |s| > 1 {
      JoinSnoc(s[1..], x);
      assert (s + [x])[1..] == s[1..] + [x];
    } else if |s| == 1 {
      assert (s + [x])[1..] == [x];
    }
  }

  lemma {:induction false} SplitPlain(a: string)
    requires '\n' !in a
    ensures Split(a) == [a]
  {
    if a != [] {
      SplitPlain(a[1..]);
      assert a == [a[0]] + a[1..];
    }
  }

  lemma {:induction false} SplitAtFirstBreak(a: string, b: string)
    requires '\n' !in a
    ensures Split(a + "\n" + b) == [a] + Split(b)
  {
    if a == [] {
      assert a + "\n" + b == "\n" + b;
      assert ("\n" + b)[1..] == b;
    } else {
      SplitAtFirstBreak(a[1..], b);
      assert (a + "\n" + b)[1..] == a[1..] + "\n" + b;
      assert a == [a[0]] + a[1..];
    }
  }

  /** The data-check string is exactly its entries, one per line: splitting it at line
      feeds gives the entries back, when no entry holds a line feed itself. */
  lemma {:induction false} SplitJoin(s: seq<string>)
    requires |s| >= 1
    requires forall k :: 0 <= k < |s| ==> '\n' !in s[k]
    ensures Split(Join(s)) == s
    decreases |s|
  {
    if |s| == 1 {
      SplitPlain(s[0]);
    } else {
      SplitJoin(s[1..]);
      SplitAtFirstBreak(s[0], Join(s[1..]));
      assert s == [s[0]] + s[1..];
    }
  }

  /** The data-check string lists every entry once, in sorted order, one per line. */
  lemma DataCheckStringLines(ps: seq<Pair>)
    requires exists p :: p in ps && p.0 != HashKey
    requires forall p :: p in ps && p.0 != HashKey ==> '\n' !in Format(p)
    ensures Sorted(Split(DataCheckString(ps)))
    ensures multiset(Split(DataCheckString(ps))) == multiset(Entries(ps))
  {
    var e := Entries(ps);
    var p :| p in ps && p.0 != HashKey;
    EntriesMembership(ps, Format(p));
    var sorted := Sort(e);
    assert Format(p) in multiset(sorted);
    forall k | 0 <= k < |sorted| ensures '\n' !in sorted[k] {
      assert sorted[k] in multiset(e);
      EntriesMembership(ps, sorted[k]);
    }
    SplitJoin(sorted);
  }
}
