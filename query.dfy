/**
 * `parseQuery` of public/client.js: the query string of the page's address,
 * split into `key=value` pairs and collected into an object.
 *
 * The search string is a parameter (it is `location.search` in the browser), and
 * `decodeURIComponent` is a parameter `decode`: `None` stands for the `URIError`
 * it throws on a malformed escape, which escapes from `parseQuery` as well.
 */
module Query {
  import opened Wrappers

  /** Concatenation of `parts` with `sep` between neighbours: the inverse of `Split`. */
  function JoinWith(parts: seq<string>, sep: char): string
    requires |parts| >= 1
  {
    if |parts| == 1 then parts[0] else parts[0] + [sep] + JoinWith(parts[1..], sep)
  }

  /** `s.split(sep)` for a one-character separator: the maximal separator-free pieces,
      at least one, that give back `s` when joined with `sep`. */
  function Split(s: string, sep: char): (parts: seq<string>)
    ensures |parts| >= 1
    ensures forall i :: 0 <= i < |parts| ==> sep !in parts[i]
    ensures JoinWith(parts, sep) == s
  {
    if s == [] then [[]]
    else
      var rest := Split(s[1..], sep);
      if s[0] == sep then [[]] + rest
      else
        var parts := [[s[0]] + rest[0]] + rest[1..];
        assert parts[1..] == rest[1..];
        parts
  }

  /** Splitting a separator-free prefix glued to `t` extends the first piece of `t`. */
  lemma {:induction false} SplitPrefix(x: string, t: string, sep: char)
    requires sep !in x
    ensures Split(x + t, sep) == [x + Split(t, sep)[0]] + Split(t, sep)[1..]
  {
    if x != [] {
      assert (x + t)[1..] == x[1..] + t;
      SplitPrefix(x[1..], t, sep);
      assert [x[0]] + (x[1..] + Split(t, sep)[0]) == x + Split(t, sep)[0];
    } else {
      assert x + t == t;
      assert x + Split(t, sep)[0] == Split(t, sep)[0];
      assert [Split(t, sep)[0]] + Split(t, sep)[1..] == Split(t, sep);
    }
  }

  /** Round trip: splitting a join of separator-free pieces gives the pieces back. */
  lemma {:induction false} SplitJoinWith(parts: seq<string>, sep: char)
    requires |parts| >= 1
    requires forall i :: 0 <= i < |parts| ==> sep !in parts[i]
    ensures Split(JoinWith(parts, sep), sep) == parts
  {
    if |parts| == 1 {
      SplitPrefix(parts[0], [], sep);
      assert parts[0] + [] == parts[0];
    } else {
      var tail := JoinWith(parts[1..], sep);
      SplitJoinWith(parts[1..], sep);
      assert ([sep] + tail)[1..] == tail;
      assert Split([sep] + tail, sep) == [[]] + parts[1..];
      assert parts[0] + [sep] + tail == parts[0] + ([sep] + tail);
      SplitPrefix(parts[0], [sep] + tail, sep);
      assert parts[0] + [] == parts[0];
      assert [parts[0]] + parts[1..] == parts;
    }
  }

  /** `.replace(/^\?/, '')`: drops one leading question mark, if any. */
  function StripQuestion(search: string): string {
    if |search| > 0 && search[0] == '?' then search[1..] else search
  }

  /** The pairs of a search string: `.split('&')` after the leading '?' is gone. */
  function Pairs(search: string): seq<string> {
    Split(StripQuestion(search), '&')
  }

  /** Splitting loses nothing but the one leading '?': the pairs, joined with '&'
      behind that '?', rebuild the search string, and no pair contains '&'. */
  lemma PairsRebuildSearch(search: string)
    ensures var pairs := Pairs(search);
      && (forall i :: 0 <= i < |pairs| ==> '&' !in pairs[i])
      && search == (if |search| > 0 && search[0] == '?' then "?" else "") + JoinWith(pairs, '&')
  {
  }

  /** `const [k, v] = pair.split('=')` with `v || ''`: the first two pieces of the
      split, the second one "" when there is none. */
  function KeyValue(pair: string): (string, string) {
    var parts := Split(pair, '=');
    (parts[0], if |parts| == 1 then "" else parts[1])
  }

  /** The key is the text before the first '=', the value the text after it up to
      any second '=', or "" when the pair has no '='. */
  lemma KeyValueParts(pair: string)
    ensures var kv := KeyValue(pair);
      && '=' !in kv.0 && '=' !in kv.1
      && ('=' !in pair ==> kv == (pair, ""))
      && ('=' in pair ==>
        && kv.0 + ['='] + kv.1 <= pair
        && (|kv.0| + 1 + |kv.1| == |pair| || pair[|kv.0| + 1 + |kv.1|] == '='))
  {
    var parts := Split(pair, '=');
    if |parts| > 1 {
      var rest := JoinWith(parts[1..], '=');
      assert pair == parts[0] + ['='] + rest;
      assert |parts[1..]| > 1 ==> rest == parts[1] + ['='] + JoinWith(parts[2..], '=');
    }
  }

  /** The property name that a plain-object assignment does not store: assigning a
      string to `q["__proto__"]` goes to the prototype setter, which ignores it. */
  const ProtoKey := "__proto__"

  /** `q[k] = v` on the plain object `q`. */
  function Assign(q: map<string, string>, k: string, v: string): (q': map<string, string>)
    ensures k == ProtoKey ==> q' == q
    ensures k != ProtoKey ==> q'.Keys == q.Keys + {k} && q'[k] == v
    ensures forall k' :: k' in q && k' != k ==> q'[k'] == q[k']
  {
    if k == ProtoKey then q else q[k := v]
  }

  /** Key and value of a non-empty pair after decoding both, or `None` if either
      decoding throws. */
  function DecodePair(pair: string, decode: string -> Option<string>): Option<(string, string)> {
    var kv := KeyValue(pair);
    var k := decode(kv.0);
    var v := decode(kv.1);
    if k.Some? && v.Some? then Some((k.value, v.value)) else None
  }

  /** The decoded entry pair `i` contributes: `None` for an empty pair (skipped) or
      for one whose decoding fails. */
  function Entry(pairs: seq<string>, i: nat, decode: string -> Option<string>): Option<(string, string)>
    requires i < |pairs|
  {
    if pairs[i] == "" then None else DecodePair(pairs[i], decode)
  }

  /** One turn of the `forEach` body on the object `q` built so far: an empty pair is
      skipped, any other is decoded and assigned, and a throwing decode ends the call. */
  function Step(q: map<string, string>, pair: string, decode: string -> Option<string>): Option<map<string, string>> {
    if pair == "" then Some(q)
    else
      match DecodePair(pair, decode)
      case None => None
      case Some(kv) => Some(Assign(q, kv.0, kv.1))
  }

  /** The `forEach` after it has seen the first `n` pairs. */
  function Collect(pairs: seq<string>, n: nat, decode: string -> Option<string>): Option<map<string, string>>
    requires n <= |pairs|
  {
    if n == 0 then Some(map[])
    else
      match Collect(pairs, n - 1, decode)
      case None => None
      case Some(q) => Step(q, pairs[n - 1], decode)
  }

  /** What `parseQuery()` returns for a given `location.search`. */
  function Parse(search: string, decode: string -> Option<string>): Option<map<string, string>> {
    var pairs := Pairs(search);
    Collect(pairs, |pairs|, decode)
  }

  /** Once a pair's decoding has thrown, the whole call throws. */
  lemma {:induction false} CollectFailurePersists(pairs: seq<string>, n: nat, decode: string -> Option<string>)
    requires n <= |pairs|
    requires Collect(pairs, n, decode).None?
    ensures Collect(pairs, |pairs|, decode).None?
    decreases |pairs| - n
  {
    if n < |pairs| {
      assert Collect(pairs, n + 1, decode).None?;
      CollectFailurePersists(pairs, n + 1, decode);
    }
  }

  /** `parseQuery` returns (does not throw) exactly when every non-empty pair decodes. */
  lemma {:induction false} CollectSucceeds(pairs: seq<string>, n: nat, decode: string -> Option<string>)
    requires n <= |pairs|
    ensures Collect(pairs, n, decode).Some? <==>
      forall i :: 0 <= i < n && pairs[i] != "" ==> DecodePair(pairs[i], decode).Some?
  {
    if n > 0 {
      CollectSucceeds(pairs, n - 1, decode);
      var ok := pairs[n - 1] == "" || DecodePair(pairs[n - 1], decode).Some?;
      assert Collect(pairs, n, decode).Some? <==> Collect(pairs, n - 1, decode).Some? && ok;
      assert (forall i :: 0 <= i < n && pairs[i] != "" ==> DecodePair(pairs[i], decode).Some?) <==>
        (forall i :: 0 <= i < n - 1 && pairs[i] != "" ==> DecodePair(pairs[i], decode).Some?) && ok;
    }
  }

  /** The keys of the result are the decoded keys of the non-empty pairs, except
      "__proto__". */
  lemma {:induction false} CollectKeys(pairs: seq<string>, n: nat, decode: string -> Option<string>, k: string)
    requires n <= |pairs| && Collect(pairs, n, decode).Some?
    ensures k in Collect(pairs, n, decode).value <==>
      k != ProtoKey &&
      exists i :: 0 <= i < n && Entry(pairs, i, decode).Some? && Entry(pairs, i, decode).value.0 == k
  {
    if n > 0 {
      CollectKeys(pairs, n - 1, decode, k);
      var q := Collect(pairs, n - 1, decode).value;
      assert Entry(pairs, n - 1, decode).None? ==> Collect(pairs, n, decode).value == q;
      if Entry(pairs, n - 1, decode).Some? && Entry(pairs, n - 1, decode).value.0 == k && k != ProtoKey {
        assert k in Collect(pairs, n, decode).value;
      }
    }
  }

  /** When a key repeats, the last pair with that key decides its value. */
  lemma {:induction false} CollectLastWins(pairs: seq<string>, n: nat, decode: string -> Option<string>, i: nat, k: string, v: string)
    requires n <= |pairs| && Collect(pairs, n, decode).Some?
    requires i < n && Entry(pairs, i, decode) == Some((k, v)) && k != ProtoKey
    requires forall j :: i < j < n && Entry(pairs, j, decode).Some? ==> Entry(pairs, j, decode).value.0 != k
    ensures k in Collect(pairs, n, decode).value && Collect(pairs, n, decode).value[k] == v
  {
    if i < n - 1 {
      CollectLastWins(pairs, n - 1, decode, i, k, v);
      var q := Collect(pairs, n - 1, decode).value;
      if pairs[n - 1] != "" {
        var kv := DecodePair(pairs[n - 1], decode).value;
        assert Entry(pairs, n - 1, decode) == Some(kv);
        assert Collect(pairs, n, decode).value == Assign(q, kv.0, kv.1);
      }
    }
  }

  /** `parseQuery()` with its `forEach` loop: fills `q` pair by pair. */
  method ParseQuery(search: string, decode: string -> Option<string>) returns (result: Option<map<string, string>>)
    ensures result == Parse(search, decode)
  {
    var pairs := Split(StripQuestion(search), '&');
    var q: map<string, string> := map[];
    var i := 0;
    while i < |pairs|
      invariant 0 <= i <= |pairs|
      invariant Collect(pairs, i, decode) == Some(q)
    {
      var pair := pairs[i];
      assert Collect(pairs, i + 1, decode) == Step(q, pair, decode);
      if pair != "" {
        var kv := DecodePair(pair, decode);
        if kv.None? {
          CollectFailurePersists(pairs, i + 1, decode);
          return None;
        }
        q := Assign(q, kv.value.0, kv.value.1);
      }
      i := i + 1;
    }
    result := Some(q);
  }
}
