/**
 * The landing page's reading of a Telegram Login Widget redirect: the query
 * pairs become the data-check string (every pair but `hash`, keyed by name
 * with the last value winning, sorted by key and joined as `key=value`
 * lines), the hash to check it against and the Telegram user id.
 */
module LandingAuth {
  import opened Wrappers
  import Text
  import AuthHandlers

  const HASH: string := "hash"
  const ID: string := "id"

  datatype TelegramUrlParams = TelegramUrlParams(dataCheckString: string, dataCheckHash: string, userId: int)

  datatype ParamsError = UserIdNotANumber | HashNotFound | UserIdNotFound

  type Pair = (string, string)

  // ---- Key order ----

  // Keys are ordered by `Ord for str`, which is Text.Less.

  /** Keys strictly ascending, hence distinct. */
  predicate SortedByKey(e: seq<Pair>) {
    forall i, j :: 0 <= i < j < |e| ==> Text.Less(e[i].0, e[j].0)
  }

  predicate DistinctKeys(e: seq<Pair>) {
    forall i, j :: 0 <= i < j < |e| ==> e[i].0 != e[j].0
  }

  lemma SortedCons(x: Pair, rest: seq<Pair>)
    requires SortedByKey(rest) && forall y :: y in rest ==> Text.Less(x.0, y.0)
    ensures SortedByKey([x] + rest)
  {
    var s := [x] + rest;
    forall i, j | 0 <= i < j < |s| ensures Text.Less(s[i].0, s[j].0) {
      assert s[j] == rest[j - 1];
      if i > 0 {
        assert s[i] == rest[i - 1];
      } else {
        assert rest[j - 1] in rest;
      }
    }
  }

  /** One entry put in its place among entries sorted by key. */
  function Insert(sorted: seq<Pair>, x: Pair): (r: seq<Pair>)
    requires SortedByKey(sorted) && forall i :: 0 <= i < |sorted| ==> sorted[i].0 != x.0
    ensures SortedByKey(r) && |r| == |sorted| + 1
    ensures forall y :: y in r <==> y in sorted || y == x
    decreases |sorted|
  {
    if |sorted| == 0 then [x]
    else if Text.Less(x.0, sorted[0].0) then
      assert forall y :: y in sorted ==> Text.Less(x.0, y.0) by {
        forall y | y in sorted ensures Text.Less(x.0, y.0) {
          var j :| 0 <= j < |sorted| && sorted[j] == y;
          if j > 0 {
            Text.LessTransitive(x.0, sorted[0].0, y.0);
          }
        }
      }
      SortedCons(x, sorted);
      [x] + sorted
    else
      Text.LessTotal(x.0, sorted[0].0);
      var tail := sorted[1..];
      assert SortedByKey(tail) by {
        forall i, j | 0 <= i < j < |tail| ensures Text.Less(tail[i].0, tail[j].0) {
          assert tail[i] == sorted[i + 1] && tail[j] == sorted[j + 1];
        }
      }
      var rest := Insert(tail, x);
      assert forall y :: y in rest ==> Text.Less(sorted[0].0, y.0) by {
        forall y | y in rest ensures Text.Less(sorted[0].0, y.0) {
          if y != x {
            var j :| 0 <= j < |tail| && tail[j] == y;
            assert sorted[j + 1] == y;
          }
        }
      }
      SortedCons(sorted[0], rest);
      assert sorted == [sorted[0]] + tail;
      [sorted[0]] + rest
  }

  /** `sort_by(|a, b| a.0.cmp(b.0))` on entries with distinct keys. */
  function SortByKey(s: seq<Pair>): (r: seq<Pair>)
    requires DistinctKeys(s)
    ensures SortedByKey(r) && |r| == |s|
    ensures forall y :: y in r <==> y in s
  {
    if |s| == 0 then []
    else
      var init := s[..|s| - 1];
      var last := s[|s| - 1];
      assert DistinctKeys(init);
      var sortedInit := SortByKey(init);
      assert forall i :: 0 <= i < |sortedInit| ==> sortedInit[i].0 != last.0 by {
        forall i | 0 <= i < |sortedInit| ensures sortedInit[i].0 != last.0 {
          assert sortedInit[i] in init;
          var j :| 0 <= j < |init| && init[j] == sortedInit[i];
          assert s[j] == init[j];
        }
      }
      assert s == init + [last];
      Insert(sortedInit, last)
  }

  /** Two key-sorted lists of the same entries are the same list: the sorted order is unique. */
  lemma {:induction false} SortedUnique(a: seq<Pair>, b: seq<Pair>)
    requires SortedByKey(a) && SortedByKey(b) && |a| == |b|
    requires forall x :: x in a <==> x in b
    ensures a == b
    decreases |a|
  {
    if |a| > 0 {
      assert a[0] in b;
      var k :| 0 <= k < |b| && b[k] == a[0];
      assert b[0] in a;
      var j :| 0 <= j < |a| && a[j] == b[0];
      if k > 0 && j > 0 {
        Text.LessTransitive(a[0].0, b[0].0, a[0].0);
        Text.LessIrreflexive(a[0].0);
      } else if k > 0 {
        Text.LessIrreflexive(b[0].0);
      } else if j > 0 {
        Text.LessIrreflexive(a[0].0);
      }
      assert a[0] == b[0];
      var ta, tb := a[1..], b[1..];
      assert SortedByKey(ta) by {
        forall i, l | 0 <= i < l < |ta| ensures Text.Less(ta[i].0, ta[l].0) {
          assert ta[i] == a[i + 1] && ta[l] == a[l + 1];
        }
      }
      assert SortedByKey(tb) by {
        forall i, l | 0 <= i < l < |tb| ensures Text.Less(tb[i].0, tb[l].0) {
          assert tb[i] == b[i + 1] && tb[l] == b[l + 1];
        }
      }
      forall x ensures x in ta <==> x in tb {
        if x in ta {
          var i :| 0 <= i < |ta| && ta[i] == x;
          assert a[i + 1] == x;
          Text.LessIrreflexive(a[0].0);
          assert x != b[0];
          assert x in b;
        }
        if x in tb {
          var i :| 0 <= i < |tb| && tb[i] == x;
          assert b[i + 1] == x;
          Text.LessIrreflexive(b[0].0);
          assert x != a[0];
          assert x in a;
        }
      }
      SortedUnique(ta, tb);
      assert a == [a[0]] + ta && b == [b[0]] + tb;
    }
  }

  // ---- The query pairs ----

  /** The value of the last pair with this key: later pairs overwrite earlier ones. */
  function LastValue(pairs: seq<Pair>, key: string): (r: Option<string>)
    ensures r.None? <==> forall i :: 0 <= i < |pairs| ==> pairs[i].0 != key
    ensures r.Some? ==> exists i :: 0 <= i < |pairs| && pairs[i] == (key, r.value)
                                    && forall j :: i < j < |pairs| ==> pairs[j].0 != key
  {
    if |pairs| == 0 then None
    else if pairs[|pairs| - 1].0 == key then Some(pairs[|pairs| - 1].1)
    else
      var init := pairs[..|pairs| - 1];
      assert forall i :: 0 <= i < |init| ==> init[i] == pairs[i];
      var r := LastValue(init, key);
      if r.None? then r
      else
        var i :| 0 <= i < |init| && init[i] == (key, r.value) && forall j :: i < j < |init| ==> init[j].0 != key;
        assert pairs[i] == (key, r.value);
        assert forall j :: i < j < |pairs| ==> pairs[j].0 != key;
        r
  }

  /** `params_map`: every key but `hash`, each with its last value. */
  function ParamsOf(pairs: seq<Pair>): (m: map<string, string>)
    ensures HASH !in m
    ensures forall k :: k != HASH ==> (k in m <==> LastValue(pairs, k).Some?)
    ensures forall k :: k in m ==> m[k] == LastValue(pairs, k).value
  {
    if |pairs| == 0 then map[]
    else
      var init := pairs[..|pairs| - 1];
      var last := pairs[|pairs| - 1];
      assert forall k :: k != last.0 ==> LastValue(pairs, k) == LastValue(init, k);
      var m := ParamsOf(init);
      if last.0 == HASH then m else m[last.0 := last.1]
  }

  /** Whether `e` lists the entries of `m`, each once. */
  ghost predicate EntriesOf(e: seq<Pair>, m: map<string, string>) {
    DistinctKeys(e) && forall x :: x in e <==> x.0 in m && m[x.0] == x.1
  }

  /** The entries of a map in some order (a `HashMap` iterates in no fixed order). */
  ghost function Enumerate(m: map<string, string>): (e: seq<Pair>)
    ensures EntriesOf(e, m) && |e| == |m|
    decreases |m|
  {
    if |m| == 0 then []
    else
      var k :| k in m;
      var rest := m - {k};
      assert rest.Keys == m.Keys - {k};
      var e := Enumerate(rest);
      assert forall i :: 0 <= i < |e| ==> e[i] in e && e[i].0 != k;
      e + [(k, m[k])]
  }

  /** The entries of `m` sorted by key: the one order every enumeration sorts to. */
  ghost function SortedEntries(m: map<string, string>): (e: seq<Pair>)
    ensures SortedByKey(e) && EntriesOf(e, m) && |e| == |m|
  {
    var e := SortByKey(Enumerate(m));
    assert DistinctKeys(e) by {
      forall i, j | 0 <= i < j < |e| ensures e[i].0 != e[j].0 {
        Text.LessIrreflexive(e[i].0);
      }
    }
    e
  }

  /** `format!("{}={}", k, v)` for each entry. */
  function Lines(e: seq<Pair>): (r: seq<string>)
    ensures |r| == |e| && forall i :: 0 <= i < |e| ==> r[i] == e[i].0 + "=" + e[i].1
  {
    if |e| == 0 then [] else [e[0].0 + "=" + e[0].1] + Lines(e[1..])
  }

  function DataCheckText(e: seq<Pair>): string {
    Text.Join(Lines(e), "\n")
  }

  /** The pairs' entries, collected in the map's arbitrary order and then sorted by key. */
  method SortedParams(params: map<string, string>) returns (entries: seq<Pair>)
    ensures entries == SortedEntries(params)
  {
    var collected: seq<Pair> := [];
    var rest := params.Keys;
    while rest != {}
      invariant rest <= params.Keys
      invariant DistinctKeys(collected) && |collected| + |rest| == |params|
      invariant forall x :: x in collected <==> x.0 in params && x.0 !in rest && params[x.0] == x.1
      decreases |rest|
    {
      var k :| k in rest;
      assert forall i :: 0 <= i < |collected| ==> collected[i] in collected && collected[i].0 != k;
      collected := collected + [(k, params[k])];
      rest := rest - {k};
    }
    entries := SortByKey(collected);
    SortedUnique(entries, SortedEntries(params));
  }

  /** One pass over the query pairs: the last `hash`, the last `id`, and every other key with its last value. */
  method Collect(pairs: seq<Pair>) returns (params: map<string, string>, hash: Option<string>, userId: Option<string>)
    ensures hash == LastValue(pairs, HASH) && userId == LastValue(pairs, ID)
    ensures params == ParamsOf(pairs)
  {
    params, hash, userId := map[], None, None;
    for i := 0 to |pairs|
      invariant hash == LastValue(pairs[..i], HASH)
      invariant userId == LastValue(pairs[..i], ID)
      invariant params == ParamsOf(pairs[..i])
    {
      assert pairs[..i + 1][..i] == pairs[..i];
      var (key, value) := pairs[i];
      if key == HASH {
        hash := Some(value);
      } else {
        if key == ID {
          userId := Some(value);
        }
        params := params[key := value];
      }
    }
    assert pairs[..|pairs|] == pairs;
  }

  /**
   * `TelegramUrlParams::new` over the query pairs. An `id` that is not an
   * `i64` is reported before a missing `hash`, and that before a missing `id`.
   */
  method New(pairs: seq<Pair>) returns (r: Result<TelegramUrlParams, ParamsError>)
    ensures var id := LastValue(pairs, ID);
      id.Some? && Text.ParseI64(id.value).None? ==> r == Err(UserIdNotANumber)
    ensures var id := LastValue(pairs, ID);
      (id.None? || Text.ParseI64(id.value).Some?) && LastValue(pairs, HASH).None? ==> r == Err(HashNotFound)
    ensures LastValue(pairs, HASH).Some? && LastValue(pairs, ID).None? ==> r == Err(UserIdNotFound)
    ensures r.Ok? <==> (LastValue(pairs, HASH).Some? && LastValue(pairs, ID).Some?
                        && Text.ParseI64(LastValue(pairs, ID).value).Some?)
    ensures r.Ok? ==>
      r.value.dataCheckHash == LastValue(pairs, HASH).value
      && Some(r.value.userId) == Text.ParseI64(LastValue(pairs, ID).value)
      && r.value.dataCheckString == DataCheckText(SortedEntries(ParamsOf(pairs)))
  {
    var params, hash, userId := Collect(pairs);
    var entries := SortedParams(params);
    var dataCheckString := DataCheckText(entries);
    var parsed: Option<int> := None;
    if userId.Some? {
      var n := Text.ParseI64(userId.value);
      if n.None? {
        return Err(UserIdNotANumber);
      }
      parsed := n;
    }
    if hash.None? {
      return Err(HashNotFound);
    }
    if parsed.None? {
      return Err(UserIdNotFound);
    }
    r := Ok(TelegramUrlParams(dataCheckString, hash.value, parsed.value));
  }

  /** The hash never takes part in what it signs. */
  lemma HashIsNotSigned(pairs: seq<Pair>)
    ensures forall i :: 0 <= i < |SortedEntries(ParamsOf(pairs))| ==> SortedEntries(ParamsOf(pairs))[i].0 != HASH
  {
    var e := SortedEntries(ParamsOf(pairs));
    forall i | 0 <= i < |e| ensures e[i].0 != HASH {
      assert e[i] in e;
    }
  }

  /** A repeated key is signed once, with its last value. */
  lemma {:induction false} LastValueIsSigned(pairs: seq<Pair>, key: string)
    requires key != HASH && LastValue(pairs, key).Some?
    ensures (key, LastValue(pairs, key).value) in SortedEntries(ParamsOf(pairs))
    ensures forall x :: x in SortedEntries(ParamsOf(pairs)) && x.0 == key ==> x.1 == LastValue(pairs, key).value
  {
  }

  /** A line before the `id` line in key order cannot start with `id=`. */
  lemma BelowIdIsNotId(key: string, value: string)
    ensures Text.Less(key, ID) ==> !Text.StartsWith(key + "=" + value, "id=")
  {
    var line := key + "=" + value;
    assert line[|key|] == '=';
    if |key| == 2 {
      if key == ID {
        Text.LessIrreflexive(key);
      } else {
        assert line[..2] == key;
      }
    } else if |key| >= 3 {
      if key[..3] == "id=" {
        assert "id"[1..] == "d" && "d"[1..] == "";
        assert !Text.Less(key[2..], "");
        assert !Text.Less(key[1..], "d");
      } else {
        assert line[..3] == key[..3];
      }
    }
  }

  /** Every signed entry is one of the query pairs. */
  lemma SignedEntryIsAPair(pairs: seq<Pair>, x: Pair) returns (a: nat)
    requires x in SortedEntries(ParamsOf(pairs))
    ensures a < |pairs| && pairs[a] == x
  {
    var k := x.0;
    var m := ParamsOf(pairs);
    assert k in m && m[k] == x.1;
    assert k != HASH;
    var v := LastValue(pairs, k).value;
    assert x == (k, v);
    a :| 0 <= a < |pairs| && pairs[a] == (k, v) && forall j :: a < j < |pairs| ==> pairs[j].0 != k;
  }

  /** A signed entry has no line feed when no query pair has one. */
  lemma PlainEntries(pairs: seq<Pair>)
    requires forall i :: 0 <= i < |pairs| ==> '\n' !in pairs[i].0 && '\n' !in pairs[i].1
    ensures forall x :: x in SortedEntries(ParamsOf(pairs)) ==> '\n' !in x.0 && '\n' !in x.1
  {
    forall x | x in SortedEntries(ParamsOf(pairs)) ensures '\n' !in x.0 && '\n' !in x.1 {
      var a := SignedEntryIsAPair(pairs, x);
    }
  }

  /**
   * Key-sorted entries without line feeds: the backend reads the id of the
   * data-check string from the `id` entry.
   */
  lemma IdLineIsRead(e: seq<Pair>, v: string)
    requires SortedByKey(e) && (ID, v) in e
    requires forall x :: x in e ==> '\n' !in x.0 && '\n' !in x.1
    ensures AuthHandlers.DataCheckId(DataCheckText(e)) == Text.ParseI64(v)
  {
    var lines := Lines(e);
    var p :| 0 <= p < |e| && e[p] == (ID, v);
    forall i | 0 <= i < |lines| ensures '\n' !in lines[i] {
      assert e[i] in e;
      assert lines[i] == e[i].0 + "=" + e[i].1;
    }
    forall j | 0 <= j < p ensures !Text.StartsWith(lines[j], "id=") {
      BelowIdIsNotId(e[j].0, e[j].1);
    }
    assert lines[p] == "id=" + v;
    AuthHandlers.DataCheckIdOfLine(lines, p, v);
  }

  /**
   * The string the landing page sends is one the backend reads the same id
   * from: the corrected register check accepts it for the page's user id.
   */
  lemma BackendReadsSentId(pairs: seq<Pair>, r: TelegramUrlParams)
    requires forall i :: 0 <= i < |pairs| ==> '\n' !in pairs[i].0 && '\n' !in pairs[i].1
    requires LastValue(pairs, ID).Some? && Some(r.userId) == Text.ParseI64(LastValue(pairs, ID).value)
    requires r.dataCheckString == DataCheckText(SortedEntries(ParamsOf(pairs)))
    ensures AuthHandlers.DataCheckId(r.dataCheckString) == Some(r.userId)
    ensures AuthHandlers.RegisterIdCheck(r.dataCheckString, r.userId)
  {
    var e := SortedEntries(ParamsOf(pairs));
    var v := LastValue(pairs, ID).value;
    assert (ID, v) in e;
    PlainEntries(pairs);
    IdLineIsRead(e, v);
  }
}
