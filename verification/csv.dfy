/** The comma-separated text format of table files: splitting a line at every
    comma (Rust's `str::split(",")`, no quoting) and joining fields back. */
module Csv {

  predicate NoComma(s: string) {
    forall i :: 0 <= i < |s| ==> s[i] != ','
  }

  function Commas(s: string): nat {
    if s == [] then 0 else (if s[0] == ',' then 1 else 0) + Commas(s[1..])
  }

  /** The pieces between commas; the empty line is one empty piece. */
  function Split(s: string): (parts: seq<string>)
    ensures |parts| >= 1
    decreases |s|
  {
    if s == [] then [""]
    else
      var rest := Split(s[1..]);
      if s[0] == ',' then [""] + rest
      else [[s[0]] + rest[0]] + rest[1..]
  }

  /** There is one more piece than there are commas, and no piece contains
      a comma. */
  lemma {:induction false} SplitShape(s: string)
    ensures |Split(s)| == Commas(s) + 1
    ensures forall i :: 0 <= i < |Split(s)| ==> NoComma(Split(s)[i])
    decreases |s|
  {
    if s != [] {
      SplitShape(s[1..]);
      var rest := Split(s[1..]);
      if s[0] != ',' {
        var first := [s[0]] + rest[0];
        assert NoComma(first) by {
          forall k | 0 <= k < |first|
            ensures first[k] != ','
          {
            if k > 0 {
              assert first[k] == rest[0][k - 1];
            }
          }
        }
      }
    }
  }

  /** The fields separated by single commas. */
  function Join(parts: seq<string>): string
    requires |parts| >= 1
    decreases |parts|
  {
    if |parts| == 1 then parts[0] else parts[0] + "," + Join(parts[1..])
  }

  lemma {:induction false} JoinSnoc(parts: seq<string>, x: string)
    requires |parts| >= 1
    ensures Join(parts + [x]) == Join(parts) + "," + x
    decreases |parts|
  {
    if |parts| > 1 {
      assert (parts + [x])[1..] == parts[1..] + [x];
      JoinSnoc(parts[1..], x);
    }
  }

  /** Joining the pieces of a line gives the line back. */
  lemma {:induction false} JoinSplit(s: string)
    ensures Join(Split(s)) == s
    decreases |s|
  {
    if s != [] {
      var rest := Split(s[1..]);
      JoinSplit(s[1..]);
      if s[0] == ',' {
        assert ([""] + rest)[1..] == rest;
      } else {
        var parts := [[s[0]] + rest[0]] + rest[1..];
        if |rest| == 1 {
          assert Join(parts) == [s[0]] + rest[0];
        } else {
          assert parts[1..] == rest[1..];
        }
        assert s == [s[0]] + s[1..];
      }
    }
  }

  lemma {:induction false} SplitNoComma(p: string)
    requires NoComma(p)
    ensures Split(p) == [p]
    decreases |p|
  {
    if p != [] {
      SplitNoComma(p[1..]);
      assert p == [p[0]] + p[1..];
    }
  }

  lemma {:induction false} SplitFirst(p: string, rest: string)
    requires NoComma(p)
    ensures Split(p + "," + rest) == [p] + Split(rest)
    decreases |p|
  {
    if p == [] {
      assert (p + "," + rest)[1..] == rest;
    } else {
      assert (p + "," + rest)[1..] == p[1..] + "," + rest;
      SplitFirst(p[1..], rest);
      assert p == [p[0]] + p[1..];
    }
  }

  /** Splitting joined comma-free fields gives the fields back. */
  lemma {:induction false} SplitJoin(parts: seq<string>)
    requires |parts| >= 1
    requires forall i :: 0 <= i < |parts| ==> NoComma(parts[i])
    ensures Split(Join(parts)) == parts
    decreases |parts|
  {
    if |parts| == 1 {
      SplitNoComma(parts[0]);
    } else {
      SplitJoin(parts[1..]);
      SplitFirst(parts[0], Join(parts[1..]));
      assert parts == [parts[0]] + parts[1..];
    }
  }
}
