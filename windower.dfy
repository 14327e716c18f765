/**
 * The context windower: turns one occurrence (a document's tokens and the
 * target position) into the word pieces the masked language model reads.
 *
 * The left and right contexts are joined with single spaces, a space is
 * inserted before every "##" (a regular-expression substitution that scans
 * left to right without overlap), the result is split on whitespace, and
 * each side is cut to the window radius with Python's slice semantics.
 */
module Windower {

  /** The characters Python's `str.isspace()` accepts, which `str.split()` uses as separators. */
  predicate IsSpace(c: char)
  {
    ('\t' <= c <= '\r') || ('\U{1C}' <= c <= ' ') || c == '\U{85}' || c == '\U{A0}'
    || c == '\U{1680}' || ('\U{2000}' <= c <= '\U{200A}') || c == '\U{2028}' || c == '\U{2029}'
    || c == '\U{202F}' || c == '\U{205F}' || c == '\U{3000}'
  }

  predicate NoSpace(s: string)
  {
    forall i :: 0 <= i < |s| ==> !IsSpace(s[i])
  }

  /** `' '.join(tokens)` */
  function Join(tokens: seq<string>): string
  {
    if tokens == [] then ""
    else if |tokens| == 1 then tokens[0]
    else tokens[0] + " " + Join(tokens[1..])
  }

  /** `re.sub('##', ' ##', s)`: each match found by a left-to-right scan gets a space in front. */
  function MarkContinuations(s: string): string
  {
    if |s| >= 2 && s[0] == '#' && s[1] == '#' then " ##" + MarkContinuations(s[2..])
    else if s == [] then []
    else [s[0]] + MarkContinuations(s[1..])
  }

  /** Length of the longest whitespace-free prefix. */
  function WordLength(s: string): (n: nat)
    ensures n <= |s|
    ensures forall i :: 0 <= i < n ==> !IsSpace(s[i])
    ensures n < |s| ==> IsSpace(s[n])
  {
    if s == [] || IsSpace(s[0]) then 0 else 1 + WordLength(s[1..])
  }

  /** `s.split()`: maximal whitespace-free runs, in order. */
  function Split(s: string): seq<string>
    decreases |s|
  {
    if s == [] then []
    else if IsSpace(s[0]) then Split(s[1..])
    else
      var n := WordLength(s);
      [s[..n]] + Split(s[n..])
  }

  // ---------------------------------------------------------------------------
  // Reference definition of the word pieces of whitespace-free tokens.

  function Emit(acc: string): seq<string>
  {
    if acc == [] then [] else [acc]
  }

  /**
   * The pieces of `t` when the piece being built so far is `acc`: a new piece
   * starts at every "##" the left-to-right scan matches.
   */
  function PiecesFrom(t: string, acc: string): seq<string>
  {
    if t == [] then Emit(acc)
    else if |t| >= 2 && t[0] == '#' && t[1] == '#' then Emit(acc) + PiecesFrom(t[2..], "##")
    else PiecesFrom(t[1..], acc + [t[0]])
  }

  function TokenPieces(t: string): seq<string>
  {
    PiecesFrom(t, [])
  }

  function PiecesOf(tokens: seq<string>): seq<string>
  {
    if tokens == [] then [] else TokenPieces(tokens[0]) + PiecesOf(tokens[1..])
  }

  function Concat(ss: seq<string>): string
  {
    if ss == [] then "" else ss[0] + Concat(ss[1..])
  }

  predicate AllNoSpace(tokens: seq<string>)
  {
    forall i :: 0 <= i < |tokens| ==> NoSpace(tokens[i])
  }

  // ---------------------------------------------------------------------------
  // Python slicing on a list.

  /** `s[a:]`: a suffix of `s`; a negative `a` keeps the last `-a` elements, a non-negative one drops the first `a`. */
  function SliceFrom<T>(s: seq<T>, a: int): (r: seq<T>)
    ensures |r| == if a < 0 then (if -a < |s| then -a else |s|) else (if a < |s| then |s| - a else 0)
    ensures r == s[|s| - |r|..]
  {
    var start := if a < 0 then (if |s| + a < 0 then 0 else |s| + a) else (if a < |s| then a else |s|);
    s[start..]
  }

  /** `s[:b]`: a prefix of `s`; a non-negative `b` keeps the first `b` elements, a negative one drops the last `-b`. */
  function SliceTo<T>(s: seq<T>, b: int): (r: seq<T>)
    ensures |r| == if b < 0 then (if |s| + b > 0 then |s| + b else 0) else (if b < |s| then b else |s|)
    ensures r == s[..|r|]
  {
    var stop := if b < 0 then (if |s| + b < 0 then 0 else |s| + b) else (if b < |s| then b else |s|);
    s[..stop]
  }

  // ---------------------------------------------------------------------------
  // The windower.

  /** The joined text left of the target. */
  function LeftContext(tokens: seq<string>, target: nat): string
    requires target < |tokens|
  {
    if target > 0 then Join(tokens[..target]) else ""
  }

  /** The joined text right of the target. */
  function RightContext(tokens: seq<string>, target: nat): string
    requires target < |tokens|
  {
    if target < |tokens| - 1 then Join(tokens[target + 1..]) else ""
  }

  function LeftPieces(tokens: seq<string>, target: nat): seq<string>
    requires target < |tokens|
  {
    Split(MarkContinuations(LeftContext(tokens, target)))
  }

  function RightPieces(tokens: seq<string>, target: nat): seq<string>
    requires target < |tokens|
  {
    Split(MarkContinuations(RightContext(tokens, target)))
  }

  /** A windowed instance: the pieces to encode and the index of the mask among them. */
  datatype Window = Window(pieces: seq<string>, maskIndex: nat)

  function MakeWindow(tokens: seq<string>, target: nat, maxWindow: int, mask: string): (w: Window)
    requires target < |tokens|
    ensures w.maskIndex < |w.pieces| && w.pieces[w.maskIndex] == mask
    ensures forall i :: 0 <= i < |w.pieces| && i != w.maskIndex ==> w.pieces[i] != [] && NoSpace(w.pieces[i])
  {
    SplitWords(MarkContinuations(LeftContext(tokens, target)));
    SplitWords(MarkContinuations(RightContext(tokens, target)));
    var left := SliceFrom(LeftPieces(tokens, target), -maxWindow);
    var right := SliceTo(RightPieces(tokens, target), maxWindow);
    Window(left + [mask] + right, |left|)
  }

  // ---------------------------------------------------------------------------
  // Lemmas.

  /** `str.split()` yields non-empty, whitespace-free words. */
  lemma {:induction false} SplitWords(s: string)
    ensures forall i :: 0 <= i < |Split(s)| ==> Split(s)[i] != [] && NoSpace(Split(s)[i])
    decreases |s|
  {
    if s == [] {
    } else if IsSpace(s[0]) {
      SplitWords(s[1..]);
    } else {
      var n := WordLength(s);
      SplitWords(s[n..]);
      assert Split(s) == [s[..n]] + Split(s[n..]);
    }
  }

  /** A piece that continues a word: it starts with "##". */
  predicate IsContinuation(piece: string)
  {
    |piece| >= 2 && piece[0] == '#' && piece[1] == '#'
  }

  /**
   * Every piece is non-empty, and every piece after the first starts with
   * "##" (all of them do when the piece being built already does).
   */
  lemma {:induction false} PiecesShape(t: string, acc: string)
    ensures forall i :: 0 <= i < |PiecesFrom(t, acc)| ==>
              && PiecesFrom(t, acc)[i] != []
              && (i > 0 || IsContinuation(acc) ==> IsContinuation(PiecesFrom(t, acc)[i]))
    decreases |t|
  {
    if t == [] {
    } else if |t| >= 2 && t[0] == '#' && t[1] == '#' {
      PiecesShape(t[2..], "##");
      var q := PiecesFrom(t[2..], "##");
      assert PiecesFrom(t, acc) == Emit(acc) + q;
      forall i | 0 <= i < |Emit(acc) + q|
        ensures (Emit(acc) + q)[i] != []
        ensures i > 0 || IsContinuation(acc) ==> IsContinuation((Emit(acc) + q)[i])
      {
        if i >= |Emit(acc)| {
          assert (Emit(acc) + q)[i] == q[i - |Emit(acc)|];
        }
      }
    } else {
      assert |acc| >= 2 ==> (acc + [t[0]])[0] == acc[0] && (acc + [t[0]])[1] == acc[1];
      PiecesShape(t[1..], acc + [t[0]]);
      assert PiecesFrom(t, acc) == PiecesFrom(t[1..], acc + [t[0]]);
    }
  }

  lemma {:induction false} WordLengthOfWord(w: string, rest: string)
    requires NoSpace(w)
    requires rest == [] || IsSpace(rest[0])
    ensures WordLength(w + rest) == |w|
    decreases |w|
  {
    if w == [] {
      assert w + rest == rest;
    } else {
      assert (w + rest)[1..] == w[1..] + rest;
      WordLengthOfWord(w[1..], rest);
    }
  }

  /** A whitespace-free word followed by a separator (or nothing) is split off whole. */
  lemma SplitWord(w: string, rest: string)
    requires w != [] && NoSpace(w)
    requires rest == [] || IsSpace(rest[0])
    ensures Split(w + rest) == [w] + Split(rest)
  {
    WordLengthOfWord(w, rest);
    assert (w + rest)[..|w|] == w;
    assert (w + rest)[|w|..] == rest;
  }

  lemma SplitSpace(c: char, s: string)
    requires IsSpace(c)
    ensures Split([c] + s) == Split(s)
  {
    assert ([c] + s)[1..] == s;
  }

  lemma MarkMatch(t: string)
    requires |t| >= 2 && t[0] == '#' && t[1] == '#'
    ensures MarkContinuations(t) == " ##" + MarkContinuations(t[2..])
  {
  }

  lemma MarkOther(t: string)
    requires t != [] && !(|t| >= 2 && t[0] == '#' && t[1] == '#')
    ensures MarkContinuations(t) == [t[0]] + MarkContinuations(t[1..])
  {
  }

  /** Splitting the marked text of `t`, with `acc` in front and a separator after, yields the reference pieces. */
  lemma {:induction false} SplitMarked(t: string, acc: string, rest: string)
    requires NoSpace(t) && NoSpace(acc)
    requires rest == [] || IsSpace(rest[0])
    ensures Split(acc + MarkContinuations(t) + rest) == PiecesFrom(t, acc) + Split(rest)
    decreases |t|, 2
  {
    if t == [] {
      SplitMarkedEnd(acc, rest);
    } else if |t| >= 2 && t[0] == '#' && t[1] == '#' {
      MarkMatch(t);
      assert acc + MarkContinuations(t) + rest == acc + ([' '] + ("##" + MarkContinuations(t[2..]) + rest));
      SplitMarkedMatch(t, acc, rest);
    } else {
      SplitMarkedOther(t, acc, rest);
    }
  }

  lemma SplitMarkedEnd(acc: string, rest: string)
    requires NoSpace(acc)
    requires rest == [] || IsSpace(rest[0])
    ensures Split(acc + MarkContinuations([]) + rest) == PiecesFrom([], acc) + Split(rest)
  {
    assert acc + MarkContinuations([]) + rest == acc + rest;
    if acc != [] {
      SplitWord(acc, rest);
    } else {
      assert acc + rest == rest;
    }
  }

  lemma {:induction false} SplitMarkedOther(t: string, acc: string, rest: string)
    requires NoSpace(t) && NoSpace(acc)
    requires rest == [] || IsSpace(rest[0])
    requires t != [] && !(|t| >= 2 && t[0] == '#' && t[1] == '#')
    ensures Split(acc + MarkContinuations(t) + rest) == PiecesFrom(t, acc) + Split(rest)
    decreases |t|, 0
  {
    var acc' := acc + [t[0]];
    assert acc + MarkContinuations(t) + rest == acc' + MarkContinuations(t[1..]) + rest by {
      MarkOther(t);
    }
    assert NoSpace(t[1..]) && NoSpace(acc');
    SplitMarked(t[1..], acc', rest);
    assert PiecesFrom(t, acc) == PiecesFrom(t[1..], acc');
  }

  lemma {:induction false} SplitMarkedMatch(t: string, acc: string, rest: string)
    requires NoSpace(t) && NoSpace(acc)
    requires rest == [] || IsSpace(rest[0])
    requires |t| >= 2 && t[0] == '#' && t[1] == '#'
    ensures var x := "##" + MarkContinuations(t[2..]) + rest;
            Split(acc + ([' '] + x)) == PiecesFrom(t, acc) + Split(rest)
    decreases |t|, 1
  {
    var x := "##" + MarkContinuations(t[2..]) + rest;
    var p := PiecesFrom(t[2..], "##");
    assert PiecesFrom(t, acc) == Emit(acc) + p by {
      PiecesFromMatch(t, acc);
    }
    assert Split(x) == p + Split(rest) by {
      SplitMarkedTail(t, rest);
    }
    assert Split(acc + ([' '] + x)) == Emit(acc) + Split(x) by {
      SplitAfterWord(acc, x);
    }
    assert Emit(acc) + (p + Split(rest)) == (Emit(acc) + p) + Split(rest);
  }

  lemma PiecesFromMatch(t: string, acc: string)
    requires |t| >= 2 && t[0] == '#' && t[1] == '#'
    ensures PiecesFrom(t, acc) == Emit(acc) + PiecesFrom(t[2..], "##")
  {
  }

  lemma {:induction false} SplitMarkedTail(t: string, rest: string)
    requires NoSpace(t)
    requires rest == [] || IsSpace(rest[0])
    requires |t| >= 2
    ensures Split("##" + MarkContinuations(t[2..]) + rest) == PiecesFrom(t[2..], "##") + Split(rest)
    decreases |t|, 0
  {
    assert NoSpace(t[2..]) by {
      forall i | 0 <= i < |t| - 2 ensures !IsSpace(t[2..][i]) {
        assert t[2..][i] == t[i + 2];
      }
    }
    SplitMarked(t[2..], "##", rest);
  }

  /** A whitespace-free word, a space, then `x`: the word (if any) is one piece and `x` is split on its own. */
  lemma SplitAfterWord(acc: string, x: string)
    requires NoSpace(acc)
    ensures Split(acc + ([' '] + x)) == Emit(acc) + Split(x)
  {
    assert Split([' '] + x) == Split(x) by {
      SplitSpace(' ', x);
    }
    if acc != [] {
      assert Split(acc + ([' '] + x)) == [acc] + Split([' '] + x) by {
        assert IsSpace(([' '] + x)[0]);
        SplitWord(acc, [' '] + x);
      }
    } else {
      assert acc + ([' '] + x) == [' '] + x;
    }
  }

  /** The substitution never matches across a character other than '#'. */
  lemma {:induction false} MarkAcross(a: string, c: char, b: string)
    requires c != '#'
    ensures MarkContinuations(a + [c] + b) == MarkContinuations(a) + [c] + MarkContinuations(b)
    decreases |a|, 1
  {
    if a == [] {
      assert a + [c] + b == [c] + b;
      MarkOther([c] + b);
      assert ([c] + b)[1..] == b;
    } else if |a| >= 2 && a[0] == '#' && a[1] == '#' {
      MarkAcrossMatch(a, c, b);
    } else {
      MarkAcrossOther(a, c, b);
    }
  }

  lemma {:induction false} MarkAcrossMatch(a: string, c: char, b: string)
    requires c != '#' && |a| >= 2 && a[0] == '#' && a[1] == '#'
    ensures MarkContinuations(a + [c] + b) == MarkContinuations(a) + [c] + MarkContinuations(b)
    decreases |a|, 0
  {
    var s := a + [c] + b;
    assert s[0] == a[0] && s[1] == a[1];
    assert s[2..] == a[2..] + [c] + b;
    var rest := MarkContinuations(a[2..]);
    var tail := MarkContinuations(b);
    MarkMatch(a);
    MarkMatch(s);
    MarkAcross(a[2..], c, b);
    assert MarkContinuations(s) == " ##" + (rest + [c] + tail);
    assert MarkContinuations(a) == " ##" + rest;
  }

  lemma {:induction false} MarkAcrossOther(a: string, c: char, b: string)
    requires c != '#' && a != [] && !(|a| >= 2 && a[0] == '#' && a[1] == '#')
    ensures MarkContinuations(a + [c] + b) == MarkContinuations(a) + [c] + MarkContinuations(b)
    decreases |a|, 0
  {
    var s := a + [c] + b;
    assert s[0] == a[0];
    assert |a| >= 2 ==> s[1] == a[1];
    assert |a| == 1 ==> s[1] == c;
    assert s[1..] == a[1..] + [c] + b;
    var rest := MarkContinuations(a[1..]);
    var tail := MarkContinuations(b);
    MarkOther(a);
    MarkOther(s);
    MarkAcross(a[1..], c, b);
    assert MarkContinuations(s) == [a[0]] + (rest + [c] + tail);
    assert MarkContinuations(a) == [a[0]] + rest;
  }

  /** For whitespace-free tokens, join + substitution + split yields exactly the reference pieces. */
  lemma {:induction false} SplitIntoPieces(tokens: seq<string>)
    requires AllNoSpace(tokens)
    ensures Split(MarkContinuations(Join(tokens))) == PiecesOf(tokens)
  {
    if tokens == [] {
    } else if |tokens| == 1 {
      SplitMarked(tokens[0], [], []);
      assert [] + MarkContinuations(tokens[0]) + [] == MarkContinuations(tokens[0]);
      assert PiecesOf(tokens[1..]) == [];
    } else {
      var rest := tokens[1..];
      var m := MarkContinuations(Join(rest));
      MarkAcross(tokens[0], ' ', Join(rest));
      assert Join(tokens) == tokens[0] + [' '] + Join(rest);
      assert [] + MarkContinuations(tokens[0]) + ([' '] + m) == MarkContinuations(tokens[0]) + [' '] + m;
      SplitMarked(tokens[0], [], [' '] + m);
      SplitSpace(' ', m);
      SplitIntoPieces(rest);
    }
  }

  lemma {:induction false} ConcatAppend(a: seq<string>, b: seq<string>)
    ensures Concat(a + b) == Concat(a) + Concat(b)
  {
    if a == [] {
      assert a + b == b;
    } else {
      assert (a + b)[0] == a[0];
      assert (a + b)[1..] == a[1..] + b;
      ConcatAppend(a[1..], b);
    }
  }

  lemma {:induction false} PiecesFromConcat(t: string, acc: string)
    ensures Concat(PiecesFrom(t, acc)) == acc + t
    decreases |t|, 1
  {
    if t == [] {
    } else if |t| >= 2 && t[0] == '#' && t[1] == '#' {
      PiecesFromConcatMatch(t, acc);
    } else {
      PiecesFromConcat(t[1..], acc + [t[0]]);
      assert t == [t[0]] + t[1..];
    }
  }

  lemma {:induction false} PiecesFromConcatMatch(t: string, acc: string)
    requires |t| >= 2 && t[0] == '#' && t[1] == '#'
    ensures Concat(PiecesFrom(t, acc)) == acc + t
    decreases |t|, 0
  {
    var p := PiecesFrom(t[2..], "##");
    assert PiecesFrom(t, acc) == Emit(acc) + p;
    ConcatAppend(Emit(acc), p);
    PiecesFromConcat(t[2..], "##");
    assert Concat(Emit(acc)) == acc by {
      if acc != [] {
        assert Concat([acc]) == acc + Concat([]);
      }
    }
    assert t == "##" + t[2..];
  }

  /** The pieces put back together are the tokens put back together: splitting loses no character. */
  lemma {:induction false} PiecesConcat(tokens: seq<string>)
    ensures Concat(PiecesOf(tokens)) == Concat(tokens)
  {
    if tokens != [] {
      ConcatAppend(TokenPieces(tokens[0]), PiecesOf(tokens[1..]));
      PiecesFromConcat(tokens[0], []);
      PiecesConcat(tokens[1..]);
    }
  }

  /** For whitespace-free tokens, the windower's sides are the reference pieces of the tokens before and after the target. */
  lemma ContextPieces(tokens: seq<string>, target: nat)
    requires target < |tokens| && AllNoSpace(tokens)
    ensures LeftPieces(tokens, target) == PiecesOf(tokens[..target])
    ensures RightPieces(tokens, target) == PiecesOf(tokens[target + 1..])
  {
    LeftContextPieces(tokens, target);
    RightContextPieces(tokens, target);
  }

  lemma LeftContextPieces(tokens: seq<string>, target: nat)
    requires target < |tokens| && AllNoSpace(tokens)
    ensures LeftPieces(tokens, target) == PiecesOf(tokens[..target])
  {
    var left := tokens[..target];
    assert AllNoSpace(left) by {
      forall i | 0 <= i < |left| ensures NoSpace(left[i]) {
        assert left[i] == tokens[i];
      }
    }
    SplitIntoPieces(left);
    if target == 0 {
      assert left == [];
    }
  }

  lemma RightContextPieces(tokens: seq<string>, target: nat)
    requires target < |tokens| && AllNoSpace(tokens)
    ensures RightPieces(tokens, target) == PiecesOf(tokens[target + 1..])
  {
    var right := tokens[target + 1..];
    assert AllNoSpace(right) by {
      forall i | 0 <= i < |right| ensures NoSpace(right[i]) {
        assert right[i] == tokens[target + 1 + i];
      }
    }
    SplitIntoPieces(right);
    if target == |tokens| - 1 {
      assert right == [];
    }
  }

  /** With a positive radius W, each side keeps at most W pieces: the last ones on the left, the first ones on the right. */
  lemma WindowBounds(tokens: seq<string>, target: nat, maxWindow: int, mask: string)
    requires target < |tokens| && maxWindow >= 1
    ensures var w := MakeWindow(tokens, target, maxWindow, mask);
            var l := LeftPieces(tokens, target);
            var r := RightPieces(tokens, target);
            var nl := if maxWindow < |l| then maxWindow else |l|;
            var nr := if maxWindow < |r| then maxWindow else |r|;
            && w.maskIndex == nl
            && w.pieces == l[|l| - nl..] + [mask] + r[..nr]
            && |w.pieces| <= 2 * maxWindow + 1
  {
  }

  /** With radius 0, `left[-0:]` keeps the whole left side while `right[:0]` keeps nothing. */
  lemma WindowZeroRadius(tokens: seq<string>, target: nat, mask: string)
    requires target < |tokens|
    ensures MakeWindow(tokens, target, 0, mask) == Window(LeftPieces(tokens, target) + [mask], |LeftPieces(tokens, target)|)
  {
  }

  /**
   * With a negative radius W, `left[-W:]` drops the first -W left pieces
   * instead of keeping the last ones, and `right[:W]` drops the last -W
   * right pieces.
   */
  lemma WindowNegativeRadius(tokens: seq<string>, target: nat, maxWindow: int, mask: string)
    requires target < |tokens| && maxWindow < 0
    ensures var w := MakeWindow(tokens, target, maxWindow, mask);
            var l := LeftPieces(tokens, target);
            var r := RightPieces(tokens, target);
            var dl := if -maxWindow < |l| then -maxWindow else |l|;
            var nr := if |r| + maxWindow > 0 then |r| + maxWindow else 0;
            && w.pieces == l[dl..] + [mask] + r[..nr]
            && w.maskIndex == |l| - dl
  {
  }
}
