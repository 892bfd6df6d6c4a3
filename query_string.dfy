/** The `k=v&k=v` encoding that `queryParameters` produces, and the reading a backend
    applies to it. Keys and values are inserted verbatim: nothing is escaped. */
module QueryString {

  /** `parts.join(sep)`. */
  function Join(parts: seq<string>, sep: char): (r: string)
    ensures |parts| >= 1 ==> parts[0] <= r
    decreases |parts|
  {
    if |parts| == 0 then ""
    else if |parts| == 1 then parts[0]
    else parts[0] + [sep] + Join(parts[1..], sep)
  }

  /** `s.split(sep)` for a one-character separator: always at least one part. */
  function Split(s: string, sep: char): (parts: seq<string>)
    ensures |parts| >= 1
    decreases |s|
  {
    if s == [] then [""]
    else
      var rest := Split(s[1..], sep);
      if s[0] == sep then [""] + rest else [[s[0]] + rest[0]] + rest[1..]
  }

  /** One `key=value` segment. */
  function Segment(p: (string, string)): string {
    p.0 + "=" + p.1
  }

  /** The query string for an ordered list of name/value pairs. */
  function Encode(pairs: seq<(string, string)>): (r: string)
    ensures r == "" <==> pairs == []
    ensures pairs != [] ==> Segment(pairs[0]) <= r
  {
    var segs := seq(|pairs|, i requires 0 <= i < |pairs| => Segment(pairs[i]));
    assert pairs != [] ==> Segment(pairs[0])[|pairs[0].0|] == '=';
    Join(segs, '&')
  }

  /** A segment read back: the name is everything before the first '=', the value the
      rest (an empty value when there is no '='). */
  function ParseSegment(s: string): (p: (string, string))
    decreases |s|
  {
    if s == [] then ("", "")
    else if s[0] == '=' then ("", s[1..])
    else
      var (k, v) := ParseSegment(s[1..]);
      ([s[0]] + k, v)
  }

  /** A query string read back into its name/value pairs, in order. */
  function Decode(s: string): seq<(string, string)> {
    if s == "" then []
    else
      var parts := Split(s, '&');
      seq(|parts|, i requires 0 <= i < |parts| => ParseSegment(parts[i]))
  }

  /** A pair survives the encoding when its name holds neither '&' nor '=' and its value
      holds no '&'. */
  predicate Plain(p: (string, string)) {
    '&' !in p.0 && '=' !in p.0 && '&' !in p.1
  }

  lemma {:induction false} SplitPrefix(a: string, t: string, sep: char)
    requires sep !in a
    ensures Split(a + t, sep) == [a + Split(t, sep)[0]] + Split(t, sep)[1..]
    decreases |a|
  {
    if a != [] {
      assert (a + t)[1..] == a[1..] + t;
      SplitPrefix(a[1..], t, sep);
      assert [a[0]] + (a[1..] + Split(t, sep)[0]) == a + Split(t, sep)[0];
    } else {
      assert a + t == t;
      var parts := Split(t, sep);
      assert [parts[0]] + parts[1..] == parts;
      assert a + parts[0] == parts[0];
    }
  }

  /** Splitting a joined list gives the list back when no part holds the separator. */
  lemma {:induction false} SplitJoin(parts: seq<string>, sep: char)
    requires |parts| >= 1
    requires forall i :: 0 <= i < |parts| ==> sep !in parts[i]
    ensures Split(Join(parts, sep), sep) == parts
    decreases |parts|
  {
    if |parts| == 1 {
      SplitPrefix(parts[0], "", sep);
      assert parts[0] + "" == parts[0];
    } else {
      var rest := parts[1..];
      SplitJoin(rest, sep);
      var tail := [sep] + Join(rest, sep);
      assert Split(tail, sep) == [""] + rest by {
        assert tail[1..] == Join(rest, sep);
      }
      SplitPrefix(parts[0], tail, sep);
      assert parts[0] + [sep] + Join(rest, sep) == parts[0] + tail;
      assert parts[0] + "" == parts[0];
      assert [parts[0]] + rest == parts;
    }
  }

  lemma {:induction false} ParseSegmentOf(k: string, v: string)
    requires '=' !in k
    ensures ParseSegment(k + "=" + v) == (k, v)
    decreases |k|
  {
    if k == [] {
      assert k + "=" + v == "=" + v;
    } else {
      assert (k + "=" + v)[1..] == k[1..] + "=" + v;
      ParseSegmentOf(k[1..], v);
      assert [k[0]] + k[1..] == k;
    }
  }

  /** Decoding an encoded list of plain pairs gives the same pairs in the same order. */
  lemma DecodeEncode(pairs: seq<(string, string)>)
    requires forall i :: 0 <= i < |pairs| ==> Plain(pairs[i])
    ensures Decode(Encode(pairs)) == pairs
  {
    if pairs != [] {
      var segs := seq(|pairs|, i requires 0 <= i < |pairs| => Segment(pairs[i]));
      forall i | 0 <= i < |segs|
        ensures '&' !in segs[i]
      {
        assert segs[i] == pairs[i].0 + "=" + pairs[i].1;
      }
      SplitJoin(segs, '&');
      assert Encode(pairs) != "" by {
        assert segs[0][|pairs[0].0|] == '=';
      }
      forall i | 0 <= i < |pairs|
        ensures ParseSegment(segs[i]) == pairs[i]
      {
        ParseSegmentOf(pairs[i].0, pairs[i].1);
      }
    }
  }

  /** Because nothing is escaped, a value holding '&' and '=' cannot be told apart from
      two separate pairs. */
  lemma EncodeIsAmbiguous()
    ensures Encode([("a", "b&c=d")]) == Encode([("a", "b"), ("c", "d")])
    ensures [("a", "b&c=d")] != [("a", "b"), ("c", "d")]
  {
    var one := [("a", "b&c=d")];
    var two := [("a", "b"), ("c", "d")];
    assert Segment(one[0]) == "a=b&c=d";
    assert seq(1, i requires 0 <= i < 1 => Segment(one[i])) == ["a=b&c=d"];
    assert Segment(two[0]) == "a=b";
    assert Segment(two[1]) == "c=d";
    var segs := seq(2, i requires 0 <= i < 2 => Segment(two[i]));
    assert segs == ["a=b", "c=d"];
    assert Join(segs, '&') == "a=b" + "&" + "c=d";
  }
}
