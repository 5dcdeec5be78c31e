/** The behaviour of Go's `strings` package that the client relies on:
    `strings.Split` with a one-character separator (and `strings.Join`, its
    inverse), plus byte searches from the left and from the right. */
module Strings {

  /** Position of the first `c` in `s`, or -1 when there is none. */
  function IndexOf(s: string, c: char): (i: int)
    ensures -1 <= i < |s|
    ensures i == -1 <==> c !in s
    ensures 0 <= i ==> s[i] == c && c !in s[..i]
  {
    if s == [] then -1
    else if s[0] == c then 0
    else
      var j := IndexOf(s[1..], c);
      assert s[1..][..if j < 0 then 0 else j] == s[1..if j < 0 then 1 else j + 1];
      if j < 0 then -1 else j + 1
  }

  /** Position of the last `c` in `s`, or -1 when there is none. */
  function LastIndexOf(s: string, c: char): (i: int)
    ensures -1 <= i < |s|
    ensures i == -1 <==> c !in s
    ensures 0 <= i ==> s[i] == c && c !in s[i + 1..]
  {
    if s == [] then -1
    else if s[|s| - 1] == c then |s| - 1
    else
      var j := LastIndexOf(s[..|s| - 1], c);
      assert s[..|s| - 1][if j < 0 then 0 else j + 1..] + [s[|s| - 1]] == s[if j < 0 then 0 else j + 1..];
      j
  }

  /** `strings.Split(s, [sep])`: the pieces of `s` between occurrences of
      `sep`. There is always at least one piece, and none contains `sep`. */
  function Split(s: string, sep: char): (fields: seq<string>)
    ensures |fields| >= 1
    ensures forall k | 0 <= k < |fields| :: sep !in fields[k]
    decreases |s|
  {
    var i := IndexOf(s, sep);
    if i < 0 then [s] else [s[..i]] + Split(s[i + 1..], sep)
  }

  /** `strings.Join(fields, [sep])`. */
  function Join(fields: seq<string>, sep: char): string
  {
    if |fields| == 0 then ""
    else if |fields| == 1 then fields[0]
    else fields[0] + [sep] + Join(fields[1..], sep)
  }

  /** `strings.Split(s, [sep])[0]`: the text of `s` before its first `sep`,
      or the whole of `s` when it holds no `sep`. */
  function FirstField(s: string, sep: char): (r: string)
    ensures |r| <= |s| && r == s[..|r|]
    ensures sep !in r
    ensures |r| == |s| || s[|r|] == sep
  {
    Split(s, sep)[0]
  }

  /** Joining the pieces back with the separator gives the original text. */
  lemma {:induction false} JoinSplit(s: string, sep: char)
    ensures Join(Split(s, sep), sep) == s
    decreases |s|
  {
    var i := IndexOf(s, sep);
    if i >= 0 {
      var head, rest := s[..i], s[i + 1..];
      JoinSplit(rest, sep);
      JoinCons(head, Split(rest, sep), sep);
      AroundSeparator(s, i);
    }
  }

  /** `s` is the text before position `i`, the character there, and the rest. */
  lemma AroundSeparator(s: string, i: nat)
    requires i < |s|
    ensures s == s[..i] + [s[i]] + s[i + 1..]
  {
  }

  /** Joining a field in front of at least one more. */
  lemma JoinCons(head: string, tail: seq<string>, sep: char)
    requires |tail| >= 1
    ensures Join([head] + tail, sep) == head + [sep] + Join(tail, sep)
  {
  }

  /** Splitting a join of separator-free pieces gives the pieces back. */
  lemma {:induction false} SplitJoin(fields: seq<string>, sep: char)
    requires |fields| >= 1
    requires forall k | 0 <= k < |fields| :: sep !in fields[k]
    ensures Split(Join(fields, sep), sep) == fields
    decreases |fields|
  {
    if |fields| == 1 {
      assert Split(fields[0], sep) == [fields[0]];
    } else {
      var head, tail := fields[0], fields[1..];
      var s := Join(fields, sep);
      assert s == head + [sep] + Join(tail, sep);
      IndexAfterFreePrefix(head, Join(tail, sep), sep);
      assert s[..|head|] == head;
      assert s[|head| + 1..] == Join(tail, sep);
      SplitJoin(tail, sep);
    }
  }

  /** In `p + [c] + q` with `c` not in `p`, the first `c` is the one after `p`. */
  lemma IndexAfterFreePrefix(p: string, q: string, c: char)
    requires c !in p
    ensures IndexOf(p + [c] + q, c) == |p|
  {
    var s := p + [c] + q;
    var i := IndexOf(s, c);
    assert s[|p|] == c;
    assert s[..|p|] == p;
  }

  /** The last `c` is at `i` when `s[i]` is `c` and none follows. */
  lemma LastIndexAt(s: string, c: char, i: nat)
    requires i < |s| && s[i] == c && c !in s[i + 1..]
    ensures LastIndexOf(s, c) == i
  {
  }

  /** The first `c` is at `i` when `s[i]` is `c` and none precedes. */
  lemma IndexAt(s: string, c: char, i: nat)
    requires i < |s| && s[i] == c && c !in s[..i]
    ensures IndexOf(s, c) == i
  {
  }

  /** Splitting at the first separator, at position `i`. */
  lemma SplitAtFirst(s: string, sep: char, i: nat)
    requires i < |s| && s[i] == sep && sep !in s[..i]
    ensures Split(s, sep) == [s[..i]] + Split(s[i + 1..], sep)
  {
  }
}
