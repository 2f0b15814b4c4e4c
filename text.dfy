/** Joining cells or lines with a one-character separator
    (`Array.prototype.join`), and cutting a text at every occurrence of
    that separator, which is how a CSV reader without quoting splits a
    line into fields and a file into lines; with the facts that make a
    joined text readable back. */
module Text {

  /** `parts.join(sep)`: the empty list joins to the empty string. */
  function Join(parts: seq<string>, sep: char): string
  {
    if |parts| == 0 then ""
    else if |parts| == 1 then parts[0]
    else parts[0] + [sep] + Join(parts[1..], sep)
  }

  /** The fields of `s` when it is cut at every `sep`, as a CSV reader
      that does not quote or escape reads them: always at least one piece,
      and one more piece than there are separators in `s`. */
  function Split(s: string, sep: char): (parts: seq<string>)
    ensures |parts| >= 1
    ensures |parts| == Occurrences(s, sep) + 1
    decreases |s|
  {
    if |s| == 0 then [""]
    else
      var rest := Split(s[1..], sep);
      if s[0] == sep then [""] + rest else [[s[0]] + rest[0]] + rest[1..]
  }

  function Occurrences(s: string, c: char): nat
  {
    if |s| == 0 then 0 else (if s[0] == c then 1 else 0) + Occurrences(s[1..], c)
  }

  lemma {:induction false} SplitWithoutSeparator(s: string, sep: char)
    requires sep !in s
    ensures Split(s, sep) == [s]
    decreases |s|
  {
    if |s| > 0 {
      assert sep !in s[1..] by {
        forall i | 0 <= i < |s[1..]| ensures s[1..][i] != sep {
          assert s[1..][i] == s[i + 1];
        }
      }
      SplitWithoutSeparator(s[1..], sep);
      assert [s[0]] + s[1..] == s;
    }
  }

  /** Text before the first separator is the first piece. */
  lemma {:induction false} SplitAtFirstSeparator(a: string, sep: char, b: string)
    requires sep !in a
    ensures Split(a + [sep] + b, sep) == [a] + Split(b, sep)
    decreases |a|
  {
    var s := a + [sep] + b;
    if |a| == 0 {
      assert s[1..] == b;
    } else {
      assert s[1..] == a[1..] + [sep] + b;
      SplitAtFirstSeparator(a[1..], sep, b);
      assert [a[0]] + a[1..] == a;
    }
  }

  /** Splitting a joined list gives the list back when no part contains the
      separator (the empty list joins to "" and splits to [""]). */
  lemma {:induction false} SplitJoin(parts: seq<string>, sep: char)
    requires |parts| >= 1
    requires forall i | 0 <= i < |parts| :: sep !in parts[i]
    ensures Split(Join(parts, sep), sep) == parts
    decreases |parts|
  {
    if |parts| == 1 {
      SplitWithoutSeparator(parts[0], sep);
    } else {
      SplitJoin(parts[1..], sep);
      SplitAtFirstSeparator(parts[0], sep, Join(parts[1..], sep));
    }
  }

  /** A first line, a separator, then lines joined with it, splits back
      into the first line and those lines, when none of them holds the
      separator (no lines leave one empty piece after the first). */
  lemma SplitAfterFirst(first: string, rest: seq<string>, sep: char)
    requires sep !in first
    requires forall i | 0 <= i < |rest| :: sep !in rest[i]
    ensures Split(first + [sep] + Join(rest, sep), sep) == [first] + (if rest == [] then [""] else rest)
  {
    if rest == [] {
      SplitAtFirstSeparator(first, sep, "");
    } else {
      JoinCons(first, rest, sep);
      SplitJoin([first] + rest, sep);
    }
  }

  /** Putting one more part in front of a non-empty join. */
  lemma JoinCons(head: string, tail: seq<string>, sep: char)
    requires |tail| >= 1
    ensures Join([head] + tail, sep) == head + [sep] + Join(tail, sep)
  {
    assert ([head] + tail)[1..] == tail;
  }

  /** A character other than the separator appears in a join only if it
      appears in one of the parts. */
  lemma {:induction false} JoinAvoids(parts: seq<string>, sep: char, c: char)
    requires c != sep
    requires forall i | 0 <= i < |parts| :: c !in parts[i]
    ensures c !in Join(parts, sep)
    decreases |parts|
  {
    if |parts| > 1 {
      JoinAvoids(parts[1..], sep, c);
    }
  }

  /** Separators in a concatenation add up. */
  lemma {:induction false} OccurrencesAppend(a: string, b: string, c: char)
    ensures Occurrences(a + b, c) == Occurrences(a, c) + Occurrences(b, c)
    decreases |a|
  {
    if |a| == 0 {
      assert a + b == b;
    } else {
      assert (a + b)[1..] == a[1..] + b;
      OccurrencesAppend(a[1..], b, c);
    }
  }

  /** A join of n parts splits into at least n pieces: the n - 1
      separators the join puts in, and more when a part holds the
      separator itself. */
  lemma {:induction false} JoinSplitsIntoAtLeast(parts: seq<string>, sep: char)
    ensures |Split(Join(parts, sep), sep)| >= |parts|
    decreases |parts|
  {
    if |parts| > 1 {
      JoinSplitsIntoAtLeast(parts[1..], sep);
      OccurrencesAppend(parts[0] + [sep], Join(parts[1..], sep), sep);
      OccurrencesAppend(parts[0], [sep], sep);
    }
  }
}
