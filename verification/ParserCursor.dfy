/** The parser's cursor over the lexer: lookahead, one step back, and comments kept aside. */
module ParserCursor {
  datatype Kind = NoKind | Eof | Newline | Semicolon | Lbrace | Rbrace | Comment | Error | Word(id: nat)

  datatype Token = Token(kind: Kind, start: nat, end: nat)

  /** Tokens the grammar sees. */
  predicate Visible(t: Token) {
    !t.kind.NoKind? && !t.kind.Comment? && !t.kind.Error?
  }

  /** The stream without comments, errors and fillers. */
  function Reals(s: seq<Token>): seq<Token> {
    if s == [] then []
    else if Visible(s[|s| - 1]) then Reals(s[..|s| - 1]) + [s[|s| - 1]]
    else Reals(s[..|s| - 1])
  }

  function Comments(s: seq<Token>): seq<Token> {
    if s == [] then []
    else if s[|s| - 1].kind.Comment? then Comments(s[..|s| - 1]) + [s[|s| - 1]]
    else Comments(s[..|s| - 1])
  }

  /** A lexer's output: it ends with the end of the file, which is all there is after that, and
      tokens come in the order of the source. */
  predicate Source(s: seq<Token>) {
    && s != [] && s[|s| - 1].kind.Eof?
    && (forall i, j :: 0 <= i < j < |s| ==> s[i].start <= s[j].start)
  }

  const Nothing := Token(NoKind, 0, 0)

  /** The `i`-th token the grammar sees; nothing before the first. */
  function RealAt(s: seq<Token>, i: int): Token
    requires s != []
  {
    if i < 0 then Nothing
    else if i < |Reals(s)| then Reals(s)[i]
    else s[|s| - 1]
  }

  function Brace(t: Token): int {
    if t.kind.Lbrace? then 1 else if t.kind.Rbrace? then -1 else 0
  }

  /** The brace depth after the first `n` tokens. */
  function Depth(s: seq<Token>, n: nat): int
    requires s != []
  {
    if n == 0 then 0 else Depth(s, n - 1) + Brace(RealAt(s, n - 1))
  }

  predicate Ends(t: Token) {
    !(t.kind.Newline? || t.kind.Semicolon? || t.kind.NoKind? || t.kind.Eof?)
  }

  /** Where the last token that is not a line end ends, among the first `n`. */
  function LastEnd(s: seq<Token>, n: nat): nat
    requires s != []
  {
    if n == 0 then 0
    else if Ends(RealAt(s, n - 1)) then RealAt(s, n - 1).end
    else LastEnd(s, n - 1)
  }

  /** Where a brace of one kind is among the first `n` tokens the grammar sees. */
  function Places(s: seq<Token>, n: nat, brace: Kind): set<nat>
    requires s != []
  {
    set i: nat | i < n && RealAt(s, i).kind == brace
  }

  /** The depth is the number of braces opened less the number closed. */
  lemma {:induction false} DepthCounts(s: seq<Token>, n: nat)
    requires s != []
    ensures Depth(s, n) == |Places(s, n, Lbrace)| - |Places(s, n, Rbrace)|
  {
    hide RealAt, Places;
    if n == 0 {
      PlacesNone(s, Lbrace);
      PlacesNone(s, Rbrace);
    } else {
      DepthCounts(s, n - 1);
      PlacesNext(s, n - 1, Lbrace);
      PlacesNext(s, n - 1, Rbrace);
    }
  }

  lemma {:induction false} PlacesNone(s: seq<Token>, brace: Kind)
    requires s != []
    ensures Places(s, 0, brace) == {}
  {
  }

  lemma {:induction false} PlacesNext(s: seq<Token>, n: nat, brace: Kind)
    requires s != []
    ensures |Places(s, n + 1, brace)| == |Places(s, n, brace)| + if RealAt(s, n).kind == brace then 1 else 0
  {
    hide RealAt, Source, Visible;
    var before, after := Places(s, n, brace), Places(s, n + 1, brace);
    assert n !in before;
    if RealAt(s, n).kind == brace {
      assert after == before + {n};
    } else {
      assert after == before;
    }
  }

  lemma {:induction false} RealIsVisible(s: seq<Token>, i: nat)
    requires Source(s)
    ensures RealAt(s, i).kind.Eof? || Visible(RealAt(s, i))
    decreases |s|
  {
    VisibleOnly(s);
  }

  lemma {:induction false} VisibleOnly(s: seq<Token>)
    ensures forall i :: 0 <= i < |Reals(s)| ==> Visible(Reals(s)[i])
    decreases |s|
  {
    if s != [] { VisibleOnly(s[..|s| - 1]); }
  }

  /** A word or a brace. */
  predicate Solid(t: Token) {
    t.kind.Word? || t.kind.Lbrace? || t.kind.Rbrace?
  }

  /** The last end is that of the last word or brace of the first `n` tokens, and 0 if there is
      none. */
  lemma {:induction false} LastEndIsLast(s: seq<Token>, n: nat, i: nat)
    requires Source(s)
    ensures i < n && Solid(RealAt(s, i)) && (forall j: nat :: i < j < n ==> !Solid(RealAt(s, j))) ==> LastEnd(s, n) == RealAt(s, i).end
    ensures (forall j: nat :: j < n ==> !Solid(RealAt(s, j))) ==> LastEnd(s, n) == 0
  {
    if n > 0 {
      LastEndIsLast(s, n - 1, i);
      RealIsVisible(s, n - 1);
    }
  }

  lemma {:induction false} RealsPrefix(s: seq<Token>, n: nat)
    requires n <= |s|
    ensures |Reals(s[..n])| <= |Reals(s)| && Reals(s[..n]) == Reals(s)[..|Reals(s[..n])|]
    decreases |s|
  {
    if n == |s| {
      assert s[..n] == s;
    } else {
      var m := |s| - 1;
      RealsPrefix(s[..m], n);
      assert s[..m][..n] == s[..n];
    }
  }

  /** Reading on to the next token the grammar sees. */
  lemma {:induction false} RealNext(s: seq<Token>, n: nat)
    requires n < |s|
    ensures s[..n + 1] == s[..n] + [s[n]]
    ensures Reals(s[..n + 1]) == if Visible(s[n]) then Reals(s[..n]) + [s[n]] else Reals(s[..n])
    ensures Comments(s[..n + 1]) == if s[n].kind.Comment? then Comments(s[..n]) + [s[n]] else Comments(s[..n])
    ensures Visible(s[n]) ==> |Reals(s[..n])| < |Reals(s)| && Reals(s)[|Reals(s[..n])|] == s[n]
  {
    assert s[..n + 1][..n] == s[..n];
    RealsPrefix(s, n + 1);
  }

  // What is known at every time.

  /** The lexer has read just as far as the `n`-th token the grammar sees. */
  ghost predicate ReadTo(s: seq<Token>, pos: nat, n: nat) {
    pos <= |s| && if n <= |Reals(s)| then |Reals(s[..pos])| == n else pos == |s|
  }

  /** The cursor is an index into the stream without comments: one less than the number of
      tokens consumed. */
  ghost predicate Aligned(s: seq<Token>, pos: nat, consumed: nat, current: Token, previous: Token, lookahead: seq<Token>) {
    && s != []
    && current == RealAt(s, consumed - 1) && previous == RealAt(s, consumed - 2)
    && (forall k :: 0 <= k < |lookahead| ==> lookahead[k] == RealAt(s, consumed + k))
    && ReadTo(s, pos, consumed + |lookahead|)
  }

  /** The tokens before the current one, when `consumed` tokens have been advanced over. */
  function Before(consumed: int): nat {
    if consumed <= 0 then 0 else consumed - 1
  }

  /** The counters are those of the tokens before the current one. */
  predicate Counted(s: seq<Token>, consumed: nat, depth: int, lastEnd: nat) {
    s != [] && depth == Depth(s, Before(consumed)) && lastEnd == LastEnd(s, Before(consumed))
  }

  /** What one step back needs: the token before the previous one, and the last end before it. */
  predicate Rewindable(s: seq<Token>, consumed: nat, lastPrevious: Token, rewoundEnd: nat) {
    s != [] && consumed > 0 && lastPrevious == RealAt(s, consumed - 3) && rewoundEnd == LastEnd(s, Before(consumed - 1))
  }

  predicate Sorted(s: seq<Token>) {
    forall i, j :: 0 <= i < j < |s| ==> s[i].start <= s[j].start
  }

  /** Every comment read is pending or was handed out, once; the pending ones are in order. */
  ghost predicate Kept(s: seq<Token>, pos: nat, pending: seq<Token>, taken: seq<Token>) {
    && pos <= |s| && multiset(pending) + multiset(taken) == multiset(Comments(s[..pos]))
    && Sorted(pending)
    && (forall k, i :: 0 <= k < |pending| && pos <= i < |s| ==> pending[k].start <= s[i].start)
  }

  lemma {:induction false} KeptMore(s: seq<Token>, pos: nat, pending: seq<Token>, taken: seq<Token>)
    requires Source(s) && Kept(s, pos, pending, taken) && pos < |s|
    ensures Kept(s, pos + 1, if s[pos].kind.Comment? then pending + [s[pos]] else pending, taken)
  {
    RealNext(s, pos);
  }

  lemma {:induction false} ReadMore(s: seq<Token>, pos: nat, n: nat)
    requires ReadTo(s, pos, n) && pos < |s|
    ensures Visible(s[pos]) ==> s[pos] == RealAt(s, n) && ReadTo(s, pos + 1, n + 1)
    ensures !Visible(s[pos]) ==> ReadTo(s, pos + 1, n)
  {
    RealNext(s, pos);
    RealsPrefix(s, pos);
  }

  lemma {:induction false} ReadPast(s: seq<Token>, pos: nat, n: nat)
    requires Source(s) && ReadTo(s, pos, n) && pos == |s|
    ensures RealAt(s, n) == s[|s| - 1] && ReadTo(s, pos, n + 1)
  {
    assert s[..pos] == s;
  }

  lemma {:induction false} AlignedPeek(s: seq<Token>, pos: nat, consumed: nat, current: Token, previous: Token, lookahead: seq<Token>, pos1: nat)
    requires Aligned(s, pos, consumed, current, previous, lookahead) && ReadTo(s, pos1, consumed + |lookahead| + 1)
    ensures Aligned(s, pos1, consumed, current, previous, lookahead + [RealAt(s, consumed + |lookahead|)])
  {
    hide RealAt, ReadTo;
  }

  /** Moving on: the next token is the first looked at ahead, or read just now. */
  lemma {:induction false} AlignedNext(s: seq<Token>, pos: nat, consumed: nat, current: Token, previous: Token, lookahead: seq<Token>)
    requires Aligned(s, pos, consumed, current, previous, lookahead)
    ensures lookahead != [] ==> Aligned(s, pos, consumed + 1, lookahead[0], current, lookahead[1..])
  {
    hide RealAt, ReadTo;
  }

  lemma {:induction false} AlignedRead(s: seq<Token>, pos: nat, consumed: nat, current: Token, previous: Token, pos1: nat)
    requires Aligned(s, pos, consumed, current, previous, []) && ReadTo(s, pos1, consumed + 1)
    ensures Aligned(s, pos1, consumed + 1, RealAt(s, consumed), current, [])
  {
    hide RealAt, ReadTo;
  }

  lemma {:induction false} AlignedBack(s: seq<Token>, pos: nat, consumed: nat, current: Token, previous: Token, lookahead: seq<Token>)
    requires Aligned(s, pos, consumed, current, previous, lookahead) && consumed > 0
    ensures Aligned(s, pos, consumed - 1, previous, RealAt(s, consumed - 3), [current] + lookahead)
  {
    hide RealAt, ReadTo;
  }

  lemma {:induction false} AlignedParts(s: seq<Token>, pos: nat, consumed: nat, current: Token, previous: Token, lookahead: seq<Token>)
    requires Aligned(s, pos, consumed, current, previous, lookahead)
    ensures s != [] && ReadTo(s, pos, consumed + |lookahead|) && current == RealAt(s, consumed - 1) && previous == RealAt(s, consumed - 2)
    ensures forall k :: 0 <= k < |lookahead| ==> lookahead[k] == RealAt(s, consumed + k)
  {
  }

  class Cursor {
    const source: seq<Token>
    /** How much of the source the lexer has read. */
    var pos: nat
    var current: Token
    var previous: Token
    var lastPrevious: Token
    var lookahead: seq<Token>
    var pendingTrivia: seq<Token>
    var braceDepth: int
    var consumed: nat
    var lastEnd: nat
    var rewoundEnd: nat
    /** Comments handed out so far. */
    ghost var taken: seq<Token>

    constructor (source: seq<Token>)
      requires Source(source)
      ensures Valid() && this.source == source && consumed == 0 && lookahead == [] && pendingTrivia == [] && taken == []
    {
      this.source := source;
      pos, lookahead, pendingTrivia, braceDepth, consumed, lastEnd, rewoundEnd := 0, [], [], 0, 0, 0, 0;
      current, previous, lastPrevious := Nothing, Nothing, Nothing;
      taken := [];
    }

    ghost predicate Valid()
      reads this
    {
      && Source(source)
      && Aligned(source, pos, consumed, current, previous, lookahead)
      && Counted(source, consumed, braceDepth, lastEnd)
      && Kept(source, pos, pendingTrivia, taken)
    }

    /** What one step back needs is there: nothing has been consumed since the last `Advance`. */
    ghost predicate CanRewind()
      reads this
    {
      Rewindable(source, consumed, lastPrevious, rewoundEnd)
    }

    /** The next token the grammar sees; comments on the way are put aside. */
    method ScanRealToken(ghost n: nat) returns (tok: Token)
      requires Source(source) && ReadTo(source, pos, n) && Kept(source, pos, pendingTrivia, taken)
      modifies this`pos, this`pendingTrivia
      ensures tok == RealAt(source, n) && ReadTo(source, pos, n + 1) && Kept(source, pos, pendingTrivia, taken)
    {
      hide Source, ReadTo, Kept, RealAt;
      while true
        invariant ReadTo(source, pos, n) && Kept(source, pos, pendingTrivia, taken)
        decreases |source| - pos
      {
        Bounds(source, pos, n);
        if pos >= |source| {
          ReadPast(source, pos, n);
          tok := source[|source| - 1];
          return;
        }
        ReadMore(source, pos, n);
        KeptMore(source, pos, pendingTrivia, taken);
        tok := source[pos];
        pos := pos + 1;
        if tok.kind.NoKind? { continue; }
        if tok.kind.Comment? {
          pendingTrivia := pendingTrivia + [tok];
          continue;
        }
        if tok.kind.Error? { continue; }
        return;
      }
    }

    /** The `n`-th token after the current one, which stays where it is. */
    method PeekAt(n: nat) returns (tok: Token)
      requires Valid() && n > 0
      modifies this`pos, this`pendingTrivia, this`lookahead
      ensures Valid() && tok == RealAt(source, consumed + n - 1)
      ensures old(lookahead) <= lookahead && (old(CanRewind()) ==> CanRewind())
    {
      while |lookahead| < n
        invariant Valid() && old(lookahead) <= lookahead && (old(CanRewind()) ==> CanRewind())
        decreases n - |lookahead|
      {
        hide Source, ReadTo, Kept, RealAt, Aligned, Counted, Rewindable;
        ghost var before := pos;
        AlignedParts(source, pos, consumed, current, previous, lookahead);
        tok := ScanRealToken(consumed + |lookahead|);
        AlignedPeek(source, before, consumed, current, previous, lookahead, pos);
        lookahead := lookahead + [tok];
      }
      AlignedParts(source, pos, consumed, current, previous, lookahead);
      tok := lookahead[n - 1];
    }

    /** The first token looked at ahead, or, if there is none, one read now. */
    method Next() returns (tok: Token)
      requires Valid()
      modifies this`pos, this`pendingTrivia, this`lookahead
      ensures tok == RealAt(source, consumed) && lookahead == (if old(lookahead) == [] then [] else old(lookahead)[1..])
      ensures Kept(source, pos, pendingTrivia, taken) && Aligned(source, pos, consumed + 1, tok, current, lookahead)
    {
      AlignedNext(source, pos, consumed, current, previous, lookahead);
      AlignedParts(source, pos, consumed, current, previous, lookahead);
      hide Source, ReadTo, Kept, RealAt, Aligned, Counted;
      if lookahead != [] {
        tok := lookahead[0];
        lookahead := lookahead[1..];
      } else {
        ghost var before := pos;
        tok := ScanRealToken(consumed);
        AlignedRead(source, before, consumed, current, previous, pos);
      }
    }

    method Advance() returns (tok: Token)
      requires Valid()
      modifies this
      ensures taken == old(taken)
      ensures Valid() && CanRewind() && consumed == old(consumed) + 1 && tok == previous == old(current)
      ensures lookahead == (if old(lookahead) == [] then [] else old(lookahead)[1..])
    {
      AlignedParts(source, pos, consumed, current, previous, lookahead);
      CountOn(source, consumed, previous, current, braceDepth, lastEnd);
      hide Source, ReadTo, Kept, RealAt, Aligned, Ends, Brace, Counted, Rewindable;
      var next := Next();
      lastPrevious := previous;
      previous := current;
      current := next;
      rewoundEnd := lastEnd;
      lastEnd := if Ends(previous) then previous.end else lastEnd;
      consumed := consumed + 1;
      braceDepth := braceDepth + Brace(previous);
      tok := previous;
    }

    /** Undoes the last `Advance`. */
    method Rewind()
      requires Valid() && CanRewind()
      modifies this`lookahead, this`current, this`previous, this`lastEnd, this`consumed, this`braceDepth
      ensures Valid() && consumed == old(consumed) - 1
      ensures lookahead == [old(current)] + old(lookahead) && current == old(previous) && previous == old(lastPrevious)
    {
      AlignedParts(source, pos, consumed, current, previous, lookahead);
      CountBack(source, consumed, previous, lastPrevious, braceDepth, lastEnd, rewoundEnd);
      AlignedBack(source, pos, consumed, current, previous, lookahead);
      hide Source, ReadTo, Kept, RealAt, Aligned, Brace, Counted, Rewindable;
      consumed := consumed - 1;
      braceDepth := braceDepth - Brace(previous);
      lookahead := [current] + lookahead;
      current := previous;
      previous := lastPrevious;
      lastEnd := rewoundEnd;
    }

    /** Hands out the pending comments from `from` on. */
    method TakeTrivia(from: nat) returns (out: seq<Token>)
      requires Valid()
      modifies this`pendingTrivia, this`taken
      ensures Valid() && (old(CanRewind()) ==> CanRewind())
      ensures old(pendingTrivia) == pendingTrivia + out && taken == old(taken) + out
      ensures (forall t :: t in out ==> t.start >= from) && (forall t :: t in pendingTrivia ==> t.start < from)
    {
      var split := 0;
      while split < |pendingTrivia| && pendingTrivia[split].start < from
        invariant 0 <= split <= |pendingTrivia| && forall k :: 0 <= k < split ==> pendingTrivia[k].start < from
      {
        split := split + 1;
      }
      assert pendingTrivia == pendingTrivia[..split] + pendingTrivia[split..];
      TakeKeeps(source, pos, pendingTrivia, taken, split);
      hide Source, Aligned, Kept, RealAt, Counted, Rewindable;
      out := pendingTrivia[split..];
      pendingTrivia := pendingTrivia[..split];
      taken := taken + out;
    }

    /** Skips the rest of a statement that failed at brace depth `depth`, `panicAt` tokens into
        the source: to the first place, from here on, where a statement may start. */
    method Synchronize(depth: int, inBlock: bool, panicAt: nat)
      requires Valid() && consumed > 0
      modifies this
      ensures taken == old(taken)
      ensures Valid() && old(consumed) <= consumed && Resumes(source, consumed, depth, inBlock, panicAt)
      ensures forall i: nat :: old(consumed) <= i < consumed ==> !Resumes(source, i, depth, inBlock, panicAt)
    {
      assert source != [] && Source(source);
      hide *;
      var stop := Stops(depth, inBlock, panicAt);
      while !stop
        invariant Valid() && 0 < old(consumed) <= consumed && taken == old(taken)
        invariant stop <==> Resumes(source, consumed, depth, inBlock, panicAt)
        invariant forall i: nat :: old(consumed) <= i < consumed ==> !Resumes(source, i, depth, inBlock, panicAt)
        decreases Remaining(source, consumed)
      {
        NotAtEnd(source, consumed, depth, inBlock, panicAt);
        var _ := Advance();
        stop := Stops(depth, inBlock, panicAt);
      }
    }

    /** Whether to stop skipping here. */
    method Stops(depth: int, inBlock: bool, panicAt: nat) returns (stop: bool)
      requires Valid() && consumed > 0
      ensures stop <==> Resumes(source, consumed, depth, inBlock, panicAt)
    {
      AlignedParts(source, pos, consumed, current, previous, lookahead);
      hide Aligned, RealAt, Kept, Depth, LastEnd, Source;
      if current.kind.Eof? || braceDepth < depth { return true; }
      if braceDepth == depth {
        if inBlock && current.kind.Rbrace? { return true; }
        if consumed > panicAt && (previous.kind.Newline? || previous.kind.Semicolon?) { return true; }
      }
      return false;
    }
  }

  /** Where error recovery stops: at the end, outside the block the statement was in, before the
      brace that closes that block, or right after a line end past the error; the last two at
      the statement's own brace depth. `consumed` tokens have been advanced over. */
  predicate Resumes(s: seq<Token>, consumed: nat, depth: int, inBlock: bool, panicAt: nat)
    requires s != []
  {
    var d, t, p := Depth(s, Before(consumed)), RealAt(s, consumed - 1), RealAt(s, consumed - 2);
    || t.kind.Eof? || d < depth
    || (d == depth && ((inBlock && t.kind.Rbrace?) || (consumed > panicAt && (p.kind.Newline? || p.kind.Semicolon?))))
  }

  function Remaining(s: seq<Token>, consumed: nat): nat {
    if consumed <= |Reals(s)| then |Reals(s)| - consumed + 1 else 0
  }

  /** Before the end of the file there are tokens left. */
  lemma {:induction false} NotAtEnd(s: seq<Token>, consumed: nat, depth: int, inBlock: bool, panicAt: nat)
    requires Source(s) && consumed > 0 && !Resumes(s, consumed, depth, inBlock, panicAt)
    ensures Remaining(s, consumed + 1) < Remaining(s, consumed)
  {
  }

  lemma {:induction false} Bounds(s: seq<Token>, pos: nat, n: nat)
    requires ReadTo(s, pos, n) && Source(s)
    ensures pos <= |s| && s != []
  {
  }

  lemma {:induction false} TakeKeeps(s: seq<Token>, pos: nat, pending: seq<Token>, taken: seq<Token>, split: nat)
    requires Kept(s, pos, pending, taken) && split <= |pending|
    ensures Kept(s, pos, pending[..split], taken + pending[split..])
  {
    assert pending == pending[..split] + pending[split..];
  }

  /** What the counters become when one more token is consumed. */
  lemma {:induction false} CountOn(s: seq<Token>, consumed: nat, previous: Token, current: Token, depth: int, lastEnd: nat)
    requires Counted(s, consumed, depth, lastEnd) && previous == RealAt(s, consumed - 2) && current == RealAt(s, consumed - 1)
    ensures Counted(s, consumed + 1, depth + Brace(current), if Ends(current) then current.end else lastEnd)
    ensures Rewindable(s, consumed + 1, previous, lastEnd)
  {
  }

  /** What they were before the last token was consumed. */
  lemma {:induction false} CountBack(s: seq<Token>, consumed: nat, previous: Token, lastPrevious: Token, depth: int, lastEnd: nat, rewoundEnd: nat)
    requires Counted(s, consumed, depth, lastEnd) && Rewindable(s, consumed, lastPrevious, rewoundEnd) && previous == RealAt(s, consumed - 2)
    ensures consumed > 0 && lastPrevious == RealAt(s, consumed - 3) && Counted(s, consumed - 1, depth - Brace(previous), rewoundEnd)
  {
  }
}
