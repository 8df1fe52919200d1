/** tools/Vendoring/DirectoryCopy.cs, NormalizeToLf: drops every CR that an LF follows. */
module LineEndings {
  import opened Prelude

  const CR: byte := 13
  const LF: byte := 10

  /** What NormalizeToLf returns. */
  function Normalized(s: seq<byte>): seq<byte> {
    if s == [] then []
    else if s[0] == CR && |s| > 1 && s[1] == LF then Normalized(s[1..])
    else [s[0]] + Normalized(s[1..])
  }

  /** The bytes among the first `i` of `s` that are kept, each judged with its successor in `s`. */
  function NormalizedPrefix(s: seq<byte>, i: nat): seq<byte>
    requires i <= |s|
  {
    if i == 0 then []
    else NormalizedPrefix(s, i - 1)
         + (if s[i - 1] == CR && i < |s| && s[i] == LF then [] else [s[i - 1]])
  }

  lemma {:induction false} PrefixIsNormalized(s: seq<byte>, i: nat)
    requires i <= |s|
    ensures NormalizedPrefix(s, i) + Normalized(s[i..]) == Normalized(s)
  {
    if i > 0 {
      PrefixIsNormalized(s, i - 1);
      var t := s[i - 1..];
      assert t[1..] == s[i..];
      if s[i - 1] == CR && i < |s| && s[i] == LF {
        assert t[0] == CR && |t| > 1 && t[1] == LF;
      } else {
        assert Normalized(t) == [s[i - 1]] + Normalized(s[i..]);
        assert NormalizedPrefix(s, i) + Normalized(s[i..]) ==
            NormalizedPrefix(s, i - 1) + ([s[i - 1]] + Normalized(s[i..]));
      }
    } else {
      assert s[0..] == s;
    }
  }

  method NormalizeToLf(input: seq<byte>) returns (output: seq<byte>)
    ensures output == Normalized(input)
  {
    output := [];
    var i := 0;
    while i < |input|
      invariant 0 <= i <= |input| && output == NormalizedPrefix(input, i)
    {
      if input[i] == CR && i + 1 < |input| && input[i + 1] == LF {
        i := i + 1;
        continue;
      }
      output := output + [input[i]];
      i := i + 1;
    }
    PrefixIsNormalized(input, |input|);
    assert output + [] == output;
  }

  // ------------------------------------------------------------------ what it is for

  /** A checkout with CRLF line endings: every LF becomes CR LF. */
  function Expanded(s: seq<byte>): seq<byte> {
    if s == [] then [] else (if s[0] == 10 then [13, 10] else [s[0]]) + Expanded(s[1..])
  }

  /** Whatever the checkout did to the line endings of any file, normalising undoes it. */
  lemma {:induction false} NormalizeUndoesExpand(s: seq<byte>)
    ensures Normalized(Expanded(s)) == s
  {
    if s != [] {
      var e := Expanded(s);
      NormalizeUndoesExpand(s[1..]);
      if s[0] == LF {
        assert e[1..][1..] == Expanded(s[1..]) && e[1..][0] == LF;
      } else {
        assert e[1..] == Expanded(s[1..]);
        ExpandedStart(s[1..]);
      }
    }
  }

  lemma ExpandedStart(s: seq<byte>)
    ensures Expanded(s) != [] ==> Expanded(s)[0] != LF
  {
  }

  predicate HasCrLf(s: seq<byte>) {
    |s| >= 2 && ((s[0] == 13 && s[1] == 10) || HasCrLf(s[1..]))
  }

  predicate HasCrCrLf(s: seq<byte>) {
    |s| >= 3 && ((s[0] == 13 && s[1] == 13 && s[2] == 10) || HasCrCrLf(s[1..]))
  }

  /** The output still contains CR LF exactly when the input contains CR CR LF. */
  lemma {:induction false} LeftoverCrLf(s: seq<byte>)
    ensures HasCrLf(Normalized(s)) <==> HasCrCrLf(s)
  {
    if s != [] {
      LeftoverCrLf(s[1..]);
      NormalizedStart(s[1..]);
      var n := Normalized(s);
      if !(s[0] == CR && |s| > 1 && s[1] == LF) {
        assert n[1..] == Normalized(s[1..]);
        if |n| >= 2 { assert n[1] == Normalized(s[1..])[0]; }
      }
    }
  }

  /** The first byte kept is the first byte, or the LF after a dropped CR. */
  lemma NormalizedStart(s: seq<byte>)
    ensures s == [] <==> Normalized(s) == []
    ensures s != [] ==> (Normalized(s)[0] == LF <==> s[0] == LF || (|s| > 1 && s[0] == CR && s[1] == LF))
  {
    if |s| > 1 && s[0] == CR && s[1] == LF {
      assert Normalized(s[1..]) == [LF] + Normalized(s[1..][1..]);
    }
  }

  /** So normalising twice changes nothing more exactly when there is no CR CR LF. */
  lemma IdempotentIff(s: seq<byte>)
    ensures Normalized(Normalized(s)) == Normalized(s) <==> !HasCrCrLf(s)
  {
    LeftoverCrLf(s);
    FixedIff(Normalized(s));
  }

  lemma {:induction false} FixedIff(s: seq<byte>)
    ensures |Normalized(s)| <= |s|
    ensures Normalized(s) == s <==> !HasCrLf(s)
  {
    if s != [] {
      FixedIff(s[1..]);
      if !(s[0] == CR && |s| > 1 && s[1] == LF) {
        assert Normalized(s)[1..] == Normalized(s[1..]);
      }
    }
  }

  function WithoutCr(s: seq<byte>): seq<byte> {
    if s == [] then [] else (if s[0] == 13 then [] else [s[0]]) + WithoutCr(s[1..])
  }

  /** No byte other than CR is ever dropped, added or moved. */
  lemma {:induction false} OnlyCrDropped(s: seq<byte>)
    ensures WithoutCr(Normalized(s)) == WithoutCr(s)
  {
    if s != [] {
      OnlyCrDropped(s[1..]);
      if !(s[0] == CR && |s| > 1 && s[1] == LF) {
        assert Normalized(s)[1..] == Normalized(s[1..]);
      }
    }
  }
}
