/** The String class of native/hal/include/zimodem_hal/arduino/WString.h: search, cut, in-place
    replace and trim, over std::string. Lengths stay below 2^31, so `int` results do not wrap. */
module WString {
  import opened Prelude

  // ------------------------------------------------------------------ search

  predicate MatchAt(s: string, f: string, p: nat) {
    p + |f| <= |s| && s[p..p + |f|] == f
  }

  /** std::string::find: the first match at or after `from`, or -1. */
  function Find(s: string, f: string, from: nat): (p: int)
    ensures p == -1 || (from <= p && MatchAt(s, f, p))
    ensures forall q: nat | from <= q && (p == -1 || q < p) :: !MatchAt(s, f, q)
    decreases |s| - from
  {
    if from + |f| > |s| then -1
    else if s[from..from + |f|] == f then from
    else Find(s, f, from + 1)
  }

  /** std::string::rfind: the last match starting at or before `from`, or -1. */
  function RFind(s: string, f: string, from: nat): (p: int)
    ensures p == -1 || (0 <= p <= from && MatchAt(s, f, p))
    ensures forall q: nat | q <= from && (p == -1 || p < q) :: !MatchAt(s, f, q)
  {
    if from + |f| <= |s| && s[from..from + |f|] == f then from
    else if from == 0 then -1
    else RFind(s, f, from - 1)
  }

  /** Searching past a prefix is searching the rest. */
  lemma FindShifted(done: string, rest: string, f: string)
    ensures Find(done + rest, f, |done|) == (var p := Find(rest, f, 0); if p == -1 then -1 else |done| + p)
  {
    var s := done + rest;
    forall q: nat ensures MatchAt(rest, f, q) <==> MatchAt(s, f, |done| + q) {
      if q + |f| <= |rest| {
        assert s[|done| + q..|done| + q + |f|] == rest[q..q + |f|];
      }
    }
    var p := Find(s, f, |done|);
    if p != -1 {
      assert MatchAt(rest, f, p - |done|);
    }
  }

  // ------------------------------------------------------------------ replace

  /** The text between the leftmost, non-overlapping matches of `f`. */
  function Pieces(s: string, f: string): (ps: seq<string>)
    requires f != ""
    ensures ps != []
    decreases |s|
  {
    var p := Find(s, f, 0);
    if p == -1 then [s] else [s[..p]] + Pieces(s[p + |f|..], f)
  }

  function Join(ps: seq<string>, glue: string): string
    requires ps != []
  {
    if |ps| == 1 then ps[0] else ps[0] + glue + Join(ps[1..], glue)
  }

  function Replaced(s: string, f: string, rep: string): string
    requires f != ""
  {
    Join(Pieces(s, f), rep)
  }

  /** `f` occurs in no piece, nor in a piece followed by `f` before that very `f`. */
  ghost predicate Leftmost(ps: seq<string>, f: string)
    requires ps != []
  {
    && (forall k | 0 <= k < |ps| - 1 :: Find(ps[k] + f, f, 0) == |ps[k]|)
    && Find(ps[|ps| - 1], f, 0) == -1
  }

  lemma JoinCons(head: string, ps: seq<string>, glue: string)
    requires ps != []
    ensures Join([head] + ps, glue) == head + glue + Join(ps, glue)
  {
    assert ([head] + ps)[1..] == ps;
  }

  lemma LeftmostCons(head: string, ps: seq<string>, f: string)
    requires ps != [] && Leftmost(ps, f) && Find(head + f, f, 0) == |head|
    ensures Leftmost([head] + ps, f)
  {
    var all := [head] + ps;
    forall k | 0 <= k < |all| - 1 ensures Find(all[k] + f, f, 0) == |all[k]| {
      if k > 0 { assert all[k] == ps[k - 1]; }
    }
  }

  /** The pieces put together with `f` are the string, and they are split at leftmost matches. */
  lemma {:induction false} PiecesSplit(s: string, f: string)
    requires f != ""
    ensures Join(Pieces(s, f), f) == s && Leftmost(Pieces(s, f), f)
    decreases |s|
  {
    var p := Find(s, f, 0);
    if p != -1 {
      var head, rest := s[..p], s[p + |f|..];
      PiecesSplit(rest, f);
      assert s == head + f + rest by { CutTwice(s, p, p + |f|); }
      JoinCons(head, Pieces(rest, f), f);
      PrefixFind(head, rest, f);
      LeftmostCons(head, Pieces(rest, f), f);
    }
  }

  /** Whether the first match after `head` is at its end does not depend on what follows it. */
  lemma PrefixFind(head: string, rest: string, f: string)
    ensures Find(head + f, f, 0) == |head| <==> Find(head + f + rest, f, 0) == |head|
  {
    var a, b := head + f, head + f + rest;
    forall q: nat | q <= |head| ensures MatchAt(a, f, q) <==> MatchAt(b, f, q) {
      assert a[q..q + |f|] == b[q..q + |f|];
    }
    assert a[|head|..|head| + |f|] == f;
    assert MatchAt(a, f, |head|) && MatchAt(b, f, |head|);
  }

  lemma LeftmostTail(ps: seq<string>, f: string)
    requires |ps| > 1 && Leftmost(ps, f)
    ensures Leftmost(ps[1..], f)
  {
    assert ps[1..][|ps| - 2] == ps[|ps| - 1];
    forall k | 0 <= k < |ps[1..]| - 1 ensures Find(ps[1..][k] + f, f, 0) == |ps[1..][k]| {
      assert ps[1..][k] == ps[k + 1];
    }
  }

  lemma FirstPiece(s: string, head: string, f: string, rest: string)
    requires f != "" && s == head + f + rest && Find(head + f, f, 0) == |head|
    ensures Pieces(s, f) == [head] + Pieces(rest, f)
  {
    PrefixFind(head, rest, f);
    assert s[..|head|] == head && s[|head| + |f|..] == rest;
  }

  /** No other split of the string at leftmost matches exists. */
  lemma {:induction false} SplitUnique(s: string, f: string, ps: seq<string>)
    requires f != "" && ps != [] && Leftmost(ps, f) && Join(ps, f) == s
    ensures ps == Pieces(s, f)
    decreases |ps|
  {
    if |ps| == 1 {
      assert ps == [s];
    } else {
      LeftmostTail(ps, f);
      SplitUnique(Join(ps[1..], f), f, ps[1..]);
      FirstPiece(s, ps[0], f, Join(ps[1..], f));
      assert ps == [ps[0]] + ps[1..];
    }
  }

  /** The length changes by the number of matches times the difference of the two lengths. */
  lemma {:induction false} JoinLength(ps: seq<string>, f: string, rep: string)
    requires ps != []
    ensures |Join(ps, rep)| == |Join(ps, f)| + (|ps| - 1) * (|rep| - |f|)
  {
    if |ps| > 1 {
      JoinLength(ps[1..], f, rep);
    }
  }

  lemma ReplacedLength(s: string, f: string, rep: string)
    requires f != ""
    ensures |Replaced(s, f, rep)| == |s| + (|Pieces(s, f)| - 1) * (|rep| - |f|)
  {
    PiecesSplit(s, f);
    JoinLength(Pieces(s, f), f, rep);
  }

  lemma PiecesUnfold(s: string, f: string, q: nat)
    requires f != "" && Find(s, f, 0) == q
    ensures Pieces(s, f) == [s[..q]] + Pieces(s[q + |f|..], f)
  {
  }

  lemma ReplacedUnfold(s: string, f: string, rep: string, q: nat)
    requires f != "" && Find(s, f, 0) == q
    ensures Replaced(s, f, rep) == s[..q] + rep + Replaced(s[q + |f|..], f, rep)
  {
    PiecesUnfold(s, f, q);
    JoinCons(s[..q], Pieces(s[q + |f|..], f), rep);
  }

  lemma Spliced(done: string, rest: string, q: nat, n: nat)
    requires q + n <= |rest|
    ensures (done + rest)[..|done| + q] == done + rest[..q]
    ensures (done + rest)[|done| + q + n..] == rest[q + n..]
  {
  }

  lemma Regrouped(a: string, b: string, c: string, d: string)
    ensures a + (b + c + d) == (a + b + c) + d
  {
  }

  lemma NoMatchLeft(done: string, rest: string, f: string, rep: string)
    requires f != "" && Find(done + rest, f, |done|) == -1
    ensures Replaced(rest, f, rep) == rest
  {
    FindShifted(done, rest, f);
    assert Pieces(rest, f) == [rest];
  }

  /** One turn of the replace loop: the finished text grows by a piece and `rep`, and the text still
      to be searched shrinks. */
  lemma ReplaceTurn(text: string, done: string, rest: string, f: string, rep: string, p: nat)
      returns (done': string, rest': string)
    requires f != "" && text == done + rest && Find(text, f, |done|) == p
    ensures done' + rest' == text[..p] + rep + text[p + |f|..]
    ensures |done'| == p + |rep| && |rest'| < |rest|
    ensures done' + Replaced(rest', f, rep) == done + Replaced(rest, f, rep)
  {
    assert Find(rest, f, 0) == p - |done| by { FindShifted(done, rest, f); }
    var q := p - |done|;
    var piece, tail := rest[..q], rest[q + |f|..];
    done', rest' := done + piece + rep, tail;
    assert text[..p] == done + piece && text[p + |f|..] == tail by { Spliced(done, rest, q, |f|); }
    var todo := Replaced(tail, f, rep);
    assert Replaced(rest, f, rep) == piece + rep + todo by { ReplacedUnfold(rest, f, rep, q); }
    Regrouped(done, piece, rep, todo);
  }

  // ------------------------------------------------------------------ cut

  const NUL: char := '\0'

  /** What a `const char*` built from `c_str()` keeps: everything before the first NUL. */
  function CStr(s: string): string {
    if s == "" || s[0] == NUL then "" else [s[0]] + CStr(s[1..])
  }

  function Slice(s: string, left: nat, right: nat): string {
    if left >= |s| || left >= right then "" else s[left..if right > |s| then |s| else right]
  }

  function Substring(s: string, left: nat, right: nat): string { CStr(Slice(s, left, right)) }

  lemma {:induction false} CStrExact(s: string)
    ensures |CStr(s)| <= |s|
    ensures CStr(s) == s <==> NUL !in s
    ensures |CStr(s)| == |s| <==> NUL !in s
  {
    if s != "" { CStrExact(s[1..]); }
  }

  /** What c_str() keeps is the longest beginning with no NUL in it. */
  lemma {:induction false} CStrBegins(s: string)
    ensures |CStr(s)| <= |s| && CStr(s) == s[..|CStr(s)|] && '\0' !in CStr(s)
    ensures |CStr(s)| < |s| ==> s[|CStr(s)|] == '\0'
  {
    if s != "" && s[0] != NUL {
      CStrBegins(s[1..]);
      var rest := CStr(s[1..]);
      assert s[..1 + |rest|] == [s[0]] + s[1..][..|rest|];
    }
  }

  /** substring cuts out exactly [left, right) if and only if there is no NUL in it. */
  lemma SubstringExactIff(s: string, left: nat, right: nat)
    ensures Substring(s, left, right) == Slice(s, left, right) <==> NUL !in Slice(s, left, right)
  {
    CStrExact(Slice(s, left, right));
  }

  lemma BothExact(a: string, middle: string, b: string)
    ensures CStr(a) + middle + CStr(b) == a + middle + b <==> NUL !in a && NUL !in b
  {
    CStrExact(a);
    CStrExact(b);
    if CStr(a) + middle + CStr(b) == a + middle + b {
      assert |CStr(a)| + |middle| + |CStr(b)| == |a| + |middle| + |b|;
    }
  }

  lemma AroundMatch(s: string, f: string, p: nat)
    requires MatchAt(s, f, p)
    ensures s == s[..p] + f + s[p + |f|..]
    ensures Substring(s, 0, p) == CStr(s[..p]) && Substring(s, p + |f|, |s|) == CStr(s[p + |f|..])
  {
    CutTwice(s, p, p + |f|);
    assert Slice(s, 0, p) == s[..p];
    assert Slice(s, p + |f|, |s|) == s[p + |f|..];
  }

  lemma CutAround(s: string, f: string, p: nat)
    requires MatchAt(s, f, p)
    ensures Substring(s, 0, p) + f + Substring(s, p + |f|, |s|) == s <==> NUL !in s[..p] && NUL !in s[p + |f|..]
  {
    AroundMatch(s, f, p);
    BothExact(s[..p], f, s[p + |f|..]);
  }

  /** Cutting around the match indexOf finds and putting the parts back gives the string if and only
      if neither part holds a NUL. */
  lemma CutAroundMatch(s: string, f: string, from: nat, p: nat)
    requires Find(s, f, from) == p
    ensures Substring(s, 0, p) + f + Substring(s, p + |f|, |s|) == s <==> NUL !in s[..p] && NUL !in s[p + |f|..]
  {
    CutAround(s, f, p);
  }

  function Removed(s: string, index: nat, count: nat): string {
    if index >= |s| then s else s[..index] + (if index + count >= |s| then "" else s[index + count..])
  }

  /** remove joins the two outer substrings, if and only if neither holds a NUL. */
  lemma RemoveJoinsOuter(s: string, index: nat, count: nat)
    requires index < |s|
    ensures Removed(s, index, count) == Substring(s, 0, index) + Substring(s, index + count, |s|)
       <==> NUL !in Slice(s, 0, index) && NUL !in Slice(s, index + count, |s|)
  {
    var a, b := Slice(s, 0, index), Slice(s, index + count, |s|);
    assert a == s[..index];
    assert Removed(s, index, count) == a + b == a + "" + b;
    assert CStr(a) + "" + CStr(b) == CStr(a) + CStr(b);
    BothExact(a, "", b);
  }

  // ------------------------------------------------------------------ trim

  predicate White(c: char) { c == ' ' || c == '\t' || c == '\r' || c == '\n' }

  predicate AllWhite(s: string) { forall c | c in s :: White(c) }

  /** find_first_not_of: the first non-white position at or after `from`, or -1. */
  function FirstInk(s: string, from: nat): (p: int)
    requires from <= |s|
    ensures p == -1 || (from <= p < |s| && !White(s[p]))
    ensures forall q: nat | from <= q < |s| && (p == -1 || q < p) :: White(s[q])
    decreases |s| - from
  {
    if from == |s| then -1 else if !White(s[from]) then from else FirstInk(s, from + 1)
  }

  /** find_last_not_of: the last non-white position before `to`, or -1. */
  function LastInk(s: string, to: nat): (p: int)
    requires to <= |s|
    ensures p == -1 || (0 <= p < to && !White(s[p]))
    ensures forall q: nat | q < to && p < q :: White(s[q])
  {
    if to == 0 then -1 else if !White(s[to - 1]) then to - 1 else LastInk(s, to - 1)
  }

  function Trimmed(s: string): string {
    var start, end := FirstInk(s, 0), LastInk(s, |s|);
    if start == -1 || end < start then "" else s[start..end + 1]
  }

  /** No white space at either end. */
  predicate Tight(s: string) { s != "" ==> !White(s[0]) && !White(s[|s| - 1]) }

  /** trim leaves the one piece with no white space at its ends that only white space surrounds:
      any other such piece of the string is the same one. */
  lemma TrimUnique(s: string, before: string, middle: string, after: string)
    requires s == before + middle + after && AllWhite(before) && AllWhite(after) && Tight(middle)
    ensures Trimmed(s) == middle
  {
    var start, end := FirstInk(s, 0), LastInk(s, |s|);
    if middle == "" {
      assert forall q | 0 <= q < |s| :: s[q] in before || s[q] in after;
      assert start == -1;
    } else {
      assert s[|before|] == middle[0] && s[|before| + |middle| - 1] == middle[|middle| - 1];
      assert forall q | 0 <= q < |before| :: s[q] == before[q] && before[q] in before;
      assert forall q | |before| + |middle| <= q < |s| :: s[q] == after[q - |before| - |middle|] && s[q] in after;
      assert start == |before| && end == |before| + |middle| - 1;
      assert s[start..end + 1] == middle;
    }
  }

  /** The white space trimmed: space, tab, carriage return and line feed, by code. */
  lemma WhiteCodes(c: char)
    ensures White(c) <==> c as int == 32 || c as int == 9 || c as int == 13 || c as int == 10
  {
  }

  /** Such a piece exists: what trim cuts off is white, and what it leaves is tight. */
  lemma TrimSplits(s: string) returns (before: string, after: string)
    ensures s == before + Trimmed(s) + after && AllWhite(before) && AllWhite(after) && Tight(Trimmed(s))
  {
    var start, end := FirstInk(s, 0), LastInk(s, |s|);
    if start == -1 {
      before, after := s, "";
    } else {
      before, after := s[..start], s[end + 1..];
      assert AllWhite(before) && AllWhite(after) && Tight(s[start..end + 1]);
      CutTwice(s, start, end + 1);
    }
  }

  lemma TrimIdempotent(s: string)
    ensures Trimmed(Trimmed(s)) == Trimmed(s)
  {
    var before, after := TrimSplits(s);
    assert Trimmed(s) == "" + Trimmed(s) + "";
    TrimUnique(Trimmed(s), "", Trimmed(s), "");
  }

  // ------------------------------------------------------------------ the class

  class String {
    var value: string

    constructor (text: string)
      ensures value == text
    {
      value := text;
    }

    method IndexOf(f: string, from: nat) returns (p: int)
      ensures p == -1 || (from <= p && MatchAt(value, f, p))
      ensures forall q: nat | from <= q && (p == -1 || q < p) :: !MatchAt(value, f, q)
    {
      p := Find(value, f, from);
    }

    method LastIndexOf(f: string) returns (p: int)
      ensures p == -1 || (0 <= p && MatchAt(value, f, p))
      ensures forall q: nat | p < q :: !MatchAt(value, f, q)
    {
      p := RFind(value, f, |value|);
    }

    /** The characters from `left` up to, but not including, `right`, as far as the first NUL among
        them; none when `left` is at or past either end. */
    method SubstringOf(left: nat, right: nat) returns (r: string)
      ensures r == Substring(value, left, right)
      ensures left >= |value| || left >= right ==> r == ""
      ensures left < |value| && left < right ==>
                var end := if right < |value| then right else |value|;
                && |r| <= end - left && '\0' !in r
                && (forall i | 0 <= i < |r| :: r[i] == value[left + i])
                && (|r| < end - left ==> value[left + |r|] == '\0')
                && ((forall i | left <= i < end :: value[i] != '\0') ==> |r| == end - left)
    {
      if left >= |value| || left >= right {
        return "";
      }
      var end := if right > |value| then |value| else right;
      r := CStr(value[left..end]);
      CStrBegins(value[left..end]);
    }

    /** The characters before `index` stay, those from `index + count` on close up. */
    method Remove(index: nat, count: nat)
      modifies this
      ensures value == Removed(old(value), index, count)
      ensures index >= |old(value)| ==> value == old(value)
      ensures index < |old(value)| ==>
                && |value| == (if index + count < |old(value)| then |old(value)| - count else index)
                && (forall i | 0 <= i < index :: value[i] == old(value)[i])
                && (forall i | index <= i < |value| :: value[i] == old(value)[i + count])
    {
      if index < |value| {
        var end := if count > |value| - index then |value| else index + count;
        value := value[..index] + value[end..];
      }
    }

    /** Replaces in place, resuming after each inserted `rep`. `find` and `rep` are values: they do
        not alias the string being changed. */
    method Replace(find: string, rep: string)
      modifies this
      ensures find == "" ==> value == old(value)
      ensures find != "" ==> value == Join(Pieces(old(value), find), rep)
    {
      if find == "" {
        return;
      }
      var pos := 0;
      ghost var done, rest := "", value;
      while true
        invariant pos == |done| && value == done + rest
        invariant done + Replaced(rest, find, rep) == Replaced(old(value), find, rep)
        decreases |value| - pos
      {
        ghost var text := value;
        var p := Find(value, find, pos);
        if p == -1 {
          NoMatchLeft(done, rest, find, rep);
          break;
        }
        value := value[..p] + rep + value[p + |find|..];
        pos := p + |rep|;
        done, rest := ReplaceTurn(text, done, rest, find, rep, p);
      }
    }

    method Trim()
      modifies this
      ensures value == Trimmed(old(value))
    {
      var start := FirstInk(value, 0);
      var end := LastInk(value, |value|);
      value := if start == -1 then "" else value[start..end + 1];
    }
  }
}
