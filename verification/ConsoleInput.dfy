/** tools/ZiModem.Console/Program.cs: the redirected branch of RunInputLoop, with HandleByte. */
module ConsoleInput {
  import opened Prelude

  const CR: byte := 13
  const LF: byte := 10
  const CTRL_Q: byte := 0x11
  const CTRL_D: byte := 0x04

  /** What the loop does with its input: the bytes forwarded to the modem, how often the data
      directory is printed, whether Ctrl+Q stopped it, and how many bytes it consumed. */
  datatype Effect = Effect(forwarded: seq<byte>, prints: nat, stopped: bool, consumed: nat)

  function After(first: Effect, rest: Effect): Effect {
    Effect(first.forwarded + rest.forwarded, first.prints + rest.prints, rest.stopped, first.consumed + rest.consumed)
  }

  lemma AfterAssociates(a: Effect, b: Effect, c: Effect)
    ensures After(After(a, b), c) == After(a, After(b, c))
  {
  }

  /** HandleByte on one byte: false means stop. */
  function Handled(b: byte): Effect {
    if b == CTRL_Q then Effect([], 0, true, 1)
    else if b == CTRL_D then Effect([], 1, false, 1)
    else Effect([b], 0, false, 1)
  }

  /** The loop as a function of the bytes still to come and whether the last one was a CR. */
  function Looped(input: seq<byte>, lastWasCr: bool): (e: Effect)
    ensures e.consumed <= |input|
    decreases |input|
  {
    if input == [] then Effect([], 0, false, 0)
    else if lastWasCr && input[0] == LF then After(Effect([], 0, false, 1), Looped(input[1..], false))
    else
      var e := Handled(if input[0] == LF then CR else input[0]);
      if e.stopped then e else After(e, Looped(input[1..], input[0] == CR))
  }

  /** The device and the console, as far as the loop acts on them. */
  class Terminal {
    var forwarded: seq<byte>
    var prints: nat

    constructor ()
      ensures forwarded == [] && prints == 0
    {
      forwarded, prints := [], 0;
    }

    method HandleByte(b: byte) returns (goOn: bool)
      modifies this
      ensures var e := Handled(b);
              goOn == !e.stopped && forwarded == old(forwarded) + e.forwarded && prints == old(prints) + e.prints
      ensures goOn <==> b != 0x11
      ensures prints == old(prints) + if b == 0x04 then 1 else 0
      ensures forwarded == old(forwarded) + if b == 0x11 || b == 0x04 then [] else [b]
    {
      match b {
        case 0x11 => return false;
        case 0x04 => prints := prints + 1; return true;
        case _ =>
      }
      forwarded := forwarded + [b];
      goOn := true;
    }

    /** Runs until the input ends or Ctrl+Q; `stopped` tells the two apart. */
    method RunInputLoop(stdin: seq<byte>) returns (stopped: bool, consumed: nat)
      modifies this
      ensures var e := Looped(stdin, false);
              && forwarded == old(forwarded) + e.forwarded && prints == old(prints) + e.prints
              && stopped == e.stopped && consumed == e.consumed
    {
      var lastWasCr := false;
      consumed := 0;
      ghost var done := Effect([], 0, false, 0);
      assert stdin[0..] == stdin;
      while consumed < |stdin|
        invariant 0 <= consumed <= |stdin|
        invariant forwarded == old(forwarded) + done.forwarded && prints == old(prints) + done.prints
        invariant done.consumed == consumed
        invariant After(done, Looped(stdin[consumed..], lastWasCr)) == Looped(stdin, false)
      {
        var b := stdin[consumed];
        ghost var rest := stdin[consumed..];
        assert rest[1..] == stdin[consumed + 1..];
        consumed := consumed + 1;
        if lastWasCr && b == LF {
          AfterAssociates(done, Effect([], 0, false, 1), Looped(rest[1..], false));
          done := After(done, Effect([], 0, false, 1));
          lastWasCr := false;
          continue;
        }
        lastWasCr := b == CR;
        ghost var h := Handled(if b == LF then CR else b);
        var goOn := HandleByte(if b == LF then CR else b);
        if !goOn {
          return true, consumed;
        }
        AfterAssociates(done, h, Looped(rest[1..], lastWasCr));
        done := After(done, h);
      }
      stopped := false;
    }
  }

  // ------------------------------------------------------------------ line-ending independence

  /** The same text with each LF written as `ending`. */
  function WithEndings(text: seq<byte>, ending: seq<byte>): seq<byte> {
    if text == [] then [] else (if text[0] == LF then ending else [text[0]]) + WithEndings(text[1..], ending)
  }

  /** The effect of a CR-free text, its bytes counted in the CR or CRLF version. */
  predicate SameEffect(a: Effect, b: Effect) {
    a.forwarded == b.forwarded && a.prints == b.prints && a.stopped == b.stopped
  }

  lemma {:induction false} CrVersion(text: seq<byte>)
    requires CR !in text
    ensures Looped(WithEndings(text, [CR]), true) == Looped(WithEndings(text, [CR]), false) == Looped(text, false)
    decreases |text|
  {
    if text != [] {
      var w := WithEndings(text, [CR]);
      assert w[1..] == WithEndings(text[1..], [CR]);
      CrVersion(text[1..]);
    }
  }

  lemma LoopedCrLf(rest: seq<byte>)
    ensures Looped([CR, LF] + rest, false) == After(Handled(CR), After(Effect([], 0, false, 1), Looped(rest, false)))
  {
    assert ([CR, LF] + rest)[1..] == [LF] + rest;
    assert ([LF] + rest)[1..] == rest;
  }

  /** One line ending of the CRLF version: the CR acts, the LF is swallowed. */
  lemma CrLfUnfold(text: seq<byte>)
    requires CR !in text && text != []
    ensures var w, rest := WithEndings(text, [CR, LF]), WithEndings(text[1..], [CR, LF]);
            if text[0] == LF
            then Looped(w, false) == After(Handled(CR), After(Effect([], 0, false, 1), Looped(rest, false)))
            else if text[0] == CTRL_Q then Looped(w, false) == Handled(CTRL_Q)
            else Looped(w, false) == After(Handled(text[0]), Looped(rest, false))
  {
    var rest := WithEndings(text[1..], [CR, LF]);
    if text[0] == LF {
      LoopedCrLf(rest);
    } else {
      assert ([text[0]] + rest)[1..] == rest;
    }
  }

  lemma {:induction false} CrLfVersion(text: seq<byte>)
    requires CR !in text
    ensures SameEffect(Looped(WithEndings(text, [CR, LF]), false), Looped(text, false))
    decreases |text|
  {
    if text != [] {
      CrLfUnfold(text);
      CrLfVersion(text[1..]);
      var w, e := Looped(WithEndings(text[1..], [CR, LF]), false), Looped(text[1..], false);
      assert [] + w.forwarded == e.forwarded;
      assert text[0] == LF ==> Looped(text, false) == After(Handled(CR), e);
    }
  }

  lemma WithEndingsHead(text: seq<byte>, n: nat, ending: seq<byte>)
    requires n < |text|
    ensures |WithEndings(text[..n + 1], ending)| ==
              (if text[0] == LF then |ending| else 1) + |WithEndings(text[1..][..n], ending)|
  {
    assert text[..n + 1][1..] == text[1..][..n];
  }

  /** Where it stops, the CRLF version has consumed the CRLF version of what the LF version has. */
  lemma {:induction false} CrLfStop(text: seq<byte>)
    requires CR !in text
    ensures Looped(text, false).stopped ==>
              Looped(WithEndings(text, [CR, LF]), false).consumed ==
                  |WithEndings(text[..Looped(text, false).consumed], [CR, LF])|
    decreases |text|
  {
    if text != [] {
      CrLfUnfold(text);
      if text[0] == CTRL_Q {
        WithEndingsHead(text, 0, [CR, LF]);
      } else {
        CrLfStop(text[1..]);
        WithEndingsHead(text, Looped(text[1..], false).consumed, [CR, LF]);
      }
    }
  }

  /** For every CR-free text, its LF, CR and CRLF versions forward identical bytes, print alike, and
      stop alike; and where one stops, they stop at the same Ctrl+Q. */
  lemma LineEndingIndependence(text: seq<byte>)
    requires CR !in text
    ensures Looped(WithEndings(text, [CR]), false) == Looped(text, false)
    ensures SameEffect(Looped(WithEndings(text, [CR, LF]), false), Looped(text, false))
    ensures Looped(text, false).stopped ==>
              Looped(WithEndings(text, [CR, LF]), false).consumed ==
                  |WithEndings(text[..Looped(text, false).consumed], [CR, LF])|
    ensures WithEndings(text, [10]) == text
  {
    CrVersion(text);
    CrLfVersion(text);
    CrLfStop(text);
    WithLf(text);
  }

  lemma {:induction false} WithLf(text: seq<byte>)
    ensures WithEndings(text, [LF]) == text
  {
    if text != [] { WithLf(text[1..]); }
  }

  // ------------------------------------------------------------------ what is forwarded

  /** Neither a line ending nor a key of the console's own: CR, LF, Ctrl+Q, Ctrl+D. */
  predicate Plain(b: byte) { b != 13 && b != 10 && b != 0x11 && b != 0x04 }

  /** Plain input is forwarded byte for byte, all of it. */
  lemma {:induction false} PlainForwarded(input: seq<byte>, lastWasCr: bool)
    requires forall b | b in input :: Plain(b)
    ensures Looped(input, lastWasCr) == Effect(input, 0, false, |input|)
    decreases |input|
  {
    if input != [] {
      assert input[0] in input && forall b | b in input[1..] :: Plain(b);
      PlainForwarded(input[1..], false);
      assert input == [input[0]] + input[1..];
    }
  }

  /** Whether the last byte of `input` was a CR, `lastWasCr` if there is none. */
  function EndsInCr(input: seq<byte>, lastWasCr: bool): bool {
    if input == [] then lastWasCr else input[|input| - 1] == 13
  }

  lemma EndsInCrTail(input: seq<byte>, lastWasCr: bool)
    requires input != []
    ensures EndsInCr(input[1..], input[0] == 13) == EndsInCr(input, lastWasCr)
  {
  }

  /** Input in two parts, the first without Ctrl+Q, has the effect of the one and then of the other. */
  lemma {:induction false} LoopedConcat(a: seq<byte>, b: seq<byte>, lastWasCr: bool)
    requires 0x11 !in a
    ensures Looped(a + b, lastWasCr) == After(Looped(a, lastWasCr), Looped(b, EndsInCr(a, lastWasCr)))
    decreases |a|
  {
    if a == [] {
      assert [] + b == b;
      assert [] + Looped(b, lastWasCr).forwarded == Looped(b, lastWasCr).forwarded;
    } else {
      var rest, cr := a[1..], a[0] == 13;
      assert (a + b)[1..] == rest + b && (a + b)[0] == a[0];
      LoopedConcat(rest, b, cr);
      EndsInCrTail(a, lastWasCr);
      var first :=
        if lastWasCr && a[0] == 10 then Effect([], 0, false, 1) else Handled(if a[0] == 10 then 13 else a[0]);
      AfterAssociates(first, Looped(rest, cr), Looped(b, EndsInCr(a, lastWasCr)));
    }
  }

  /** One line: its text, then one CR however the line ends, and nothing of the ending is left over. */
  lemma LineForwarded(text: seq<byte>, ending: seq<byte>)
    requires forall b | b in text :: Plain(b)
    requires ending == [13] || ending == [10] || ending == [13, 10]
    ensures Looped(text + ending, false) == Effect(text + [13], 0, false, |text| + |ending|)
  {
    assert EndsInCr(text, false) == false by {
      if text != [] { assert text[|text| - 1] in text; }
    }
    PlainForwarded(text, false);
    LoopedConcat(text, ending, false);
    EndingForwarded(ending);
  }

  lemma EndingForwarded(ending: seq<byte>)
    requires ending == [13] || ending == [10] || ending == [13, 10]
    ensures Looped(ending, false) == Effect([13], 0, false, |ending|)
  {
    if ending == [13, 10] {
      var none: seq<byte> := [];
      LoopedCrLf(none);
      assert [CR, LF] + none == ending;
      assert Looped(none, false) == Effect([], 0, false, 0);
    } else {
      EndingOfOne(ending[0]);
      assert ending == [ending[0]];
    }
  }

  lemma EndingOfOne(b: byte)
    requires b == 13 || b == 10
    ensures Looped([b], false) == Effect([13], 0, false, 1)
  {
    var input := [b];
    assert input[1..] == [];
    assert [13] + [] == [13];
  }

  function CountCtrlD(input: seq<byte>): nat { multiset(input)[0x04] }

  /** The data directory is printed once for each Ctrl+D consumed. */
  lemma {:induction false} PrintsCountCtrlD(input: seq<byte>, lastWasCr: bool)
    ensures var e := Looped(input, lastWasCr); e.prints == CountCtrlD(input[..e.consumed])
    decreases |input|
  {
    if input != [] {
      var cr := !(lastWasCr && input[0] == 10) && input[0] == 13;
      PrintsCountCtrlD(input[1..], cr);
      var e, r := Looped(input, lastWasCr), Looped(input[1..], cr);
      var n := if input[0] == 0x11 then 0 else r.consumed;
      assert e.consumed == 1 + n;
      assert input[..1 + n] == [input[0]] + input[1..][..n];
      assert CountCtrlD(input[..1 + n]) == (if input[0] == 0x04 then 1 else 0) + CountCtrlD(input[1..][..n]);
    }
  }

  /** No LF, Ctrl+Q or Ctrl+D is ever forwarded, on any input at all. */
  lemma {:induction false} NeverForwarded(input: seq<byte>, lastWasCr: bool)
    ensures forall b | b in Looped(input, lastWasCr).forwarded :: b != 10 && b != 0x11 && b != 0x04
    decreases |input|
  {
    if input != [] {
      NeverForwarded(input[1..], input[0] == CR);
      NeverForwarded(input[1..], false);
    }
  }

  lemma HeadAndTail(input: seq<byte>, n: nat)
    requires 0 < n < |input|
    ensures input[..n] == [input[0]] + input[1..][..n - 1]
  {
  }

  /** It stops exactly at the first Ctrl+Q, and otherwise reads everything. */
  lemma {:induction false} StopsAtFirstCtrlQ(input: seq<byte>, lastWasCr: bool)
    ensures var e := Looped(input, lastWasCr);
            && (e.stopped <==> 0x11 in input)
            && (e.stopped ==> 0 < e.consumed <= |input| && input[e.consumed - 1] == 0x11)
            && (e.stopped ==> 0x11 !in input[..e.consumed - 1])
            && (!e.stopped ==> e.consumed == |input|)
    decreases |input|
  {
    if input != [] {
      var cr := !(lastWasCr && input[0] == LF) && input[0] == CR;
      StopsAtFirstCtrlQ(input[1..], cr);
      var e := Looped(input, lastWasCr);
      var r := Looped(input[1..], cr);
      if input[0] != CTRL_Q && r.stopped {
        HeadAndTail(input, r.consumed);
      }
    }
  }
}
