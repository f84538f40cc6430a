/** The shell's tokenizer (user/sh.c): `_gettoken` cuts the line in place, `gettoken` stays one
    token ahead of its caller. */
module Tokenizer {
  import opened Wrappers

  const WHITESPACE: string := " \t\r\n"
  const SYMBOLS: string := "<|>&;()"
  const NUL: char := '\0'

  predicate White(c: char) {
    c in WHITESPACE
  }

  predicate Symbol(c: char) {
    c in SYMBOLS
  }

  predicate Plain(c: char) {
    !White(c) && !Symbol(c)
  }

  /** A token of a line, by position */
  datatype Token = End | Sign(c: char, at: nat) | Word(from: nat, to: nat)

  /** The first position from `i` on that is not white space */
  function SkipWhite(line: string, i: nat): (j: nat)
    requires i <= |line|
    ensures i <= j <= |line| && (j < |line| ==> !White(line[j]))
    ensures forall x :: i <= x < j ==> White(line[x])
    decreases |line| - i
  {
    if i < |line| && White(line[i]) then SkipWhite(line, i + 1) else i
  }

  /** The end of the run of plain characters that starts at `i` */
  function WordEnd(line: string, i: nat): (j: nat)
    requires i <= |line|
    ensures i <= j <= |line| && (j < |line| ==> !Plain(line[j]))
    ensures forall x :: i <= x < j ==> Plain(line[x])
    decreases |line| - i
  {
    if i < |line| && Plain(line[i]) then WordEnd(line, i + 1) else i
  }

  /** The token found from position `i` on; nothing after the end */
  function Scan(line: string, i: Option<nat>): Token
    requires i.Some? ==> i.value <= |line|
  {
    if i.None? then End
    else
      var j := SkipWhite(line, i.value);
      if j == |line| then End
      else if Symbol(line[j]) then Sign(line[j], j)
      else Word(j, WordEnd(line, j))
  }

  function Next(t: Token): Option<nat> {
    match t
    case End => None
    case Sign(_, at) => Some(at + 1)
    case Word(_, to) => Some(to)
  }

  /** The `k`-th token of the line */
  function Stream(line: string, k: nat): (t: Token)
    ensures t.Sign? ==> t.at < |line|
    ensures t.Word? ==> t.from < t.to <= |line|
  {
    if k == 0 then Scan(line, Some(0)) else Scan(line, Next(Stream(line, k - 1)))
  }

  // ----- the stream is the tokens of the line

  ghost predicate Holds(t: Token, x: nat) {
    match t
    case End => false
    case Sign(_, at) => x == at
    case Word(from, to) => from <= x < to
  }

  /** A character that ends a word */
  predicate Stop(c: char) {
    c in " \t\r\n" || c in "<|>&;()"
  }

  /** A word is a maximal run of characters that are neither white space nor symbols, a sign a single
      symbol. */
  ghost predicate WellCut(line: string, t: Token) {
    match t
    case End => true
    case Sign(c, at) => at < |line| && line[at] == c && c in "<|>&;()"
    case Word(from, to) =>
      && from < to <= |line| && (forall x :: from <= x < to ==> !Stop(line[x]))
      && (from == 0 || Stop(line[from - 1])) && (to == |line| || Stop(line[to]))
  }

  /** Every token is well cut. */
  lemma {:induction false} StreamWellCut(line: string, k: nat)
    ensures WellCut(line, Stream(line, k))
  {
  }

  /** Tokens come in the order of the line and do not overlap. */
  lemma {:induction false} StreamAscends(line: string, k: nat, x: nat, y: nat)
    requires Holds(Stream(line, k), x) && Holds(Stream(line, k + 1), y)
    ensures x < y
  {
  }

  /** Once the end is reached it stays. */
  lemma {:induction false} EndStays(line: string, k: nat, l: nat)
    requires k <= l && Stream(line, k) == End
    ensures Stream(line, l) == End
  {
    if k < l { EndStays(line, k, l - 1); }
  }

  /** Where the search for token `k` begins */
  function Cursor(line: string, k: nat): (i: Option<nat>)
    ensures i.Some? ==> i.value <= |line|
  {
    if k == 0 then Some(0) else Next(Stream(line, k - 1))
  }

  /** No character is lost: every position from the cursor on that is not white space is in a token. */
  lemma {:induction false} Covered(line: string, k: nat, x: nat) returns (l: nat)
    requires Cursor(line, k).Some? && Cursor(line, k).value <= x < |line| && line[x] !in " \t\r\n"
    ensures Holds(Stream(line, l), x)
    decreases |line| - Cursor(line, k).value
  {
    var t := Stream(line, k);
    assert t == Scan(line, Cursor(line, k));
    if Holds(t, x) {
      l := k;
    } else {
      assert Cursor(line, k + 1) == Next(t);
      l := Covered(line, k + 1, x);
    }
  }

  // ----- the program

  /** `strchr`, for a string without NUL */
  method Strchr(s: string, c: char) returns (r: Option<nat>)
    ensures r.Some? <==> c in s
    ensures r.Some? ==> r.value < |s| && s[r.value] == c && c !in s[..r.value]
  {
    for i := 0 to |s|
      invariant c !in s[..i]
    {
      if s[i] == c {
        return Some(i);
      }
    }
    return None;
  }

  function Kind(t: Token): char {
    match t
    case End => NUL
    case Sign(c, _) => c
    case Word(_, _) => 'w'
  }

  function Start(t: Token): Option<nat> {
    match t
    case End => None
    case Sign(_, at) => Some(at)
    case Word(from, _) => Some(from)
  }

  /** What the caller of `gettoken` is told of token `t`: a symbol as itself, a word as 'w', and where it
      starts; 0 at the end. */
  ghost predicate Told(line: string, t: Token, c: char, p1: Option<nat>) {
    match t
    case End => c == '\0' && p1 == None
    case Sign(_, at) => at < |line| && c == line[at] && c in "<|>&;()" && p1 == Some(at)
    case Word(from, to) => c == 'w' && p1 == Some(from)
  }

  /** The buffer holds a NUL-terminated string whose rest from `i` on is the rest of `line`. */
  ghost predicate Tail(b: seq<char>, line: string, i: nat) {
    && |line| < |b| && NUL !in line && b[|line|] == NUL
    && forall x :: i <= x < |line| ==> b[x] == line[x]
  }

  /** Only positions in `[i, j)` differ. */
  ghost predicate SameOutside(a: seq<char>, b: seq<char>, i: nat, j: nat) {
    |a| == |b| && forall x :: 0 <= x < |a| && !(i <= x < j) ==> b[x] == a[x]
  }

  /** The first loop of `_gettoken`: white space becomes NUL. */
  method ClearWhite(b: array<char>, s: nat, ghost line: string) returns (i: nat)
    requires s <= |line| && Tail(b[..], line, s)
    modifies b
    ensures i == SkipWhite(line, s) && Tail(b[..], line, i) && SameOutside(old(b[..]), b[..], s, i)
    ensures i > s ==> b[s] == NUL
  {
    i := s;
    while White(b[i])
      invariant s <= i <= |line| && SkipWhite(line, s) == SkipWhite(line, i)
      invariant Tail(b[..], line, i) && SameOutside(old(b[..]), b[..], s, i)
      invariant i > s ==> b[s] == NUL
      decreases |line| - i
    {
      assert i < |line| && b[..][i] == line[i];
      b[i] := NUL;
      i := i + 1;
    }
    assert i < |line| ==> b[..][i] == line[i];
  }

  /** The second loop of `_gettoken` */
  method SkipWord(b: array<char>, s: nat, ghost line: string) returns (i: nat)
    requires s <= |line| && Tail(b[..], line, s)
    ensures i == WordEnd(line, s)
  {
    i := s;
    while b[i] != NUL && Plain(b[i])
      invariant s <= i <= |line| && WordEnd(line, s) == WordEnd(line, i)
      decreases |line| - i
    {
      assert i < |line| && b[..][i] == line[i];
      i := i + 1;
    }
    assert i < |line| ==> b[..][i] == line[i];
  }

  /** `_gettoken` on a string: the token, and what it leaves of the buffer. It writes only at or
      behind its argument and before the place where the next search begins. */
  method CutToken(b: array<char>, s: nat, ghost line: string) returns (c: char, p1: Option<nat>, p2: Option<nat>)
    requires s <= |line| && Tail(b[..], line, s)
    modifies b
    ensures var t := Scan(line, Some(s)); c == Kind(t) && p1 == Start(t) && p2 == Next(t)
    ensures Told(line, Scan(line, Some(s)), c, p1)
    ensures Tail(b[..], line, if p2.Some? then p2.value else |line|)
    ensures SameOutside(old(b[..]), b[..], s, SkipWhite(line, s) + 1)
    ensures c == 'w' ==> b[SkipWhite(line, s)] == line[SkipWhite(line, s)]
    ensures s == |line| || !Plain(line[s]) ==> b[s] == NUL
  {
    var i := ClearWhite(b, s, line);
    if b[i] == NUL {
      return NUL, None, None;
    }
    assert i < |line| && b[..][i] == line[i];
    if Symbol(b[i]) {
      c, p1 := b[i], Some(i);
      b[i] := NUL;
      p2 := Some(i + 1);
      return;
    }
    var j := SkipWord(b, i, line);
    return 'w', Some(i), Some(j);
  }

  ghost predicate Intact(b: seq<char>, line: string, t: Token) {
    t.Word? ==> t.from < t.to <= |line| && |line| < |b| && forall x :: t.from <= x < t.to ==> b[x] == line[x]
  }

  /** A word stands in the buffer as a string of its own. */
  ghost predicate Terminated(b: seq<char>, line: string, t: Token) {
    Intact(b, line, t) && (t.Word? ==> b[t.to] == NUL)
  }

  lemma ScanAscends(line: string, s: nat)
    requires s <= |line|
    ensures var t := Scan(line, Some(s)); t != End ==> s <= Next(t).value <= |line|
  {
  }

  /** Token `s` ends no later than token `t`. */
  predicate NotBehind(s: Token, t: Token) {
    s != End && t != End && Next(s).value <= Next(t).value
  }

  lemma NotBehindTrans(r: Token, s: Token, t: Token)
    requires NotBehind(r, s) && NotBehind(s, t)
    ensures NotBehind(r, t)
  {
  }

  ghost predicate Climbing(tokens: seq<Token>) {
    forall i {:trigger tokens[i]} :: 0 < i < |tokens| && tokens[i] != End ==> NotBehind(tokens[i - 1], tokens[i])
  }

  lemma {:induction false} Climb(tokens: seq<Token>, j: nat, k: nat)
    requires j <= k < |tokens| && tokens[k] != End && Climbing(tokens)
    ensures NotBehind(tokens[j], tokens[k])
    decreases k
  {
    if j < k {
      Climb(tokens, j, k - 1);
      NotBehindTrans(tokens[j], tokens[k - 1], tokens[k]);
    }
  }

  /** The first `n` tokens of the line */
  ghost function Tokens(line: string, n: nat): (r: seq<Token>)
    ensures |r| == n && forall i {:trigger r[i]} :: 0 <= i < n ==> r[i] == Stream(line, i)
  {
    seq(n, i requires 0 <= i => Stream(line, i))
  }

  /** One token ends no later than the next. */
  lemma NextAscends(line: string, n: nat, i: nat)
    requires 0 < i < n
    ensures var tokens := Tokens(line, n); tokens[i] != End ==> NotBehind(tokens[i - 1], tokens[i])
  {
    var s, t := Stream(line, i - 1), Stream(line, i);
    assert t == Scan(line, Next(s));
    if t != End { ScanAscends(line, Next(s).value); }
  }

  lemma TokensClimb(line: string, n: nat)
    ensures Climbing(Tokens(line, n))
  {
    forall i | 0 < i < n ensures Tokens(line, n)[i] != End ==> NotBehind(Tokens(line, n)[i - 1], Tokens(line, n)[i]) {
      NextAscends(line, n, i);
    }
  }

  lemma Earlier(line: string, j: nat, k: nat)
    requires j <= k && Stream(line, k) != End
    ensures NotBehind(Stream(line, j), Stream(line, k))
  {
    TokensClimb(line, k + 1);
    Climb(Tokens(line, k + 1), j, k);
  }

  /** What cutting the next token does to a word handed out before, or now */
  lemma StaysTerminated(a: seq<char>, b: seq<char>, line: string, t: Token, s: nat, e: nat)
    requires WellCut(line, t) && Intact(a, line, t) && SameOutside(a, b, s, e)
    requires t != End ==> Next(t).value <= s
    requires t.Word? ==> (t.to == s || a[t.to] == NUL)
    requires s < |b| && (s == |line| || (s < |line| && !Plain(line[s])) ==> b[s] == NUL)
    ensures Terminated(b, line, t)
  {
  }

  lemma NextIntact(a: seq<char>, b: seq<char>, line: string, s: nat)
    requires s <= |line| && Tail(a, line, s) && SameOutside(a, b, s, SkipWhite(line, s) + 1)
    requires var t := Scan(line, Some(s)); t.Word? ==> b[t.from] == line[t.from]
    ensures Intact(b, line, Scan(line, Some(s)))
  {
  }

  /** Every word among the first `k` tokens is a string of its own. */
  ghost predicate AllTerminated(b: seq<char>, line: string, k: nat) {
    forall j: nat :: j < k ==> Terminated(b, line, Stream(line, j))
  }

  lemma HandOverOne(a: seq<char>, b: seq<char>, line: string, j: nat, k: nat, s: nat)
    requires j <= k && Next(Stream(line, k)) == Some(s)
    requires if j == k then Intact(a, line, Stream(line, k)) else Terminated(a, line, Stream(line, j))
    requires SameOutside(a, b, s, SkipWhite(line, s) + 1) && s < |b|
    requires s == |line| || !Plain(line[s]) ==> b[s] == NUL
    ensures Terminated(b, line, Stream(line, j))
  {
    Earlier(line, j, k);
    StreamWellCut(line, j);
    StaysTerminated(a, b, line, Stream(line, j), s, SkipWhite(line, s) + 1);
  }

  /** Token `k` goes to the caller and the search for the next one starts at its end, `s`. */
  lemma HandOver(a: seq<char>, b: seq<char>, line: string, k: nat, s: nat)
    requires Next(Stream(line, k)) == Some(s) && Intact(a, line, Stream(line, k))
    requires AllTerminated(a, line, k)
    requires SameOutside(a, b, s, SkipWhite(line, s) + 1) && s < |b|
    requires s == |line| || !Plain(line[s]) ==> b[s] == NUL
    ensures AllTerminated(b, line, k + 1)
  {
    forall j: nat | j <= k ensures Terminated(b, line, Stream(line, j)) {
      HandOverOne(a, b, line, j, k, s);
    }
  }

  /** The statics and the buffer when `k` tokens have been handed out */
  ghost predicate Ready(b: seq<char>, line: string, k: nat, nc: char, np1: Option<nat>, np2: Option<nat>) {
    var t := Stream(line, k);
    && nc == Kind(t) && np1 == Start(t) && np2 == Next(t)
    && Tail(b, line, if np2.Some? then np2.value else |line|)
    && Intact(b, line, t)
    && AllTerminated(b, line, k)
  }

  lemma ReadyNext(a: seq<char>, b: seq<char>, line: string, k: nat, s: nat, nc: char, np1: Option<nat>,
                  np2: Option<nat>)
    requires Next(Stream(line, k)) == Some(s) && Intact(a, line, Stream(line, k)) && s <= |line| && Tail(a, line, s)
    requires AllTerminated(a, line, k)
    requires var t := Scan(line, Some(s)); nc == Kind(t) && np1 == Start(t) && np2 == Next(t)
    requires Tail(b, line, if np2.Some? then np2.value else |line|)
    requires SameOutside(a, b, s, SkipWhite(line, s) + 1)
    requires nc == 'w' ==> b[SkipWhite(line, s)] == line[SkipWhite(line, s)]
    requires s == |line| || !Plain(line[s]) ==> b[s] == NUL
    ensures Ready(b, line, k + 1, nc, np1, np2)
  {
    assert Stream(line, k + 1) == Scan(line, Some(s));
    HandOver(a, b, line, k, s);
    NextIntact(a, b, line, s);
  }

  lemma ReadyAtEnd(b: seq<char>, line: string, k: nat)
    requires Ready(b, line, k, NUL, None, None)
    ensures Ready(b, line, k + 1, NUL, None, None)
  {
  }

  lemma ReadyFacts(b: seq<char>, line: string, k: nat, nc: char, np1: Option<nat>, np2: Option<nat>)
    requires Ready(b, line, k, nc, np1, np2)
    ensures np2.Some? ==> np2.value <= |line| && Tail(b, line, np2.value)
    ensures np2.None? ==> nc == NUL && np1 == None
  {
  }

  class Shell {
    /** the line buffer, and the statics of `gettoken` */
    var buf: array<char>
    var nc: char
    var np1: Option<nat>
    var np2: Option<nat>
    /** the line as it was given, and the number of tokens handed out */
    ghost var line: string
    ghost var given: nat

    ghost predicate Valid()
      reads this, buf
    {
      Ready(buf[..], line, given, nc, np1, np2)
    }

    /** `gettoken(s, 0)` */
    constructor (b: array<char>, ghost l: string)
      requires Tail(b[..], l, 0)
      modifies b
      ensures Valid() && line == l && given == 0 && buf == b
    {
      buf := b;
      nc, np1, np2 := NUL, None, None;
      line, given := l, 0;
      new;
      ghost var a := b[..];
      nc, np1, np2 := CutToken(b, 0, l);
      NextIntact(a, b[..], l, 0);
    }

    /** The look-ahead moves on. */
    method Advance()
      requires Valid()
      modifies this, buf
      ensures buf == old(buf) && line == old(line) && given == old(given)
      ensures Ready(buf[..], line, given + 1, nc, np1, np2)
    {
      ghost var a := buf[..];
      ReadyFacts(a, line, given, nc, np1, np2);
      if np2.None? {
        ReadyAtEnd(a, line, given);
        nc := NUL;
      } else {
        ghost var s := np2.value;
        nc, np1, np2 := CutToken(buf, np2.value, line);
        ReadyNext(a, buf[..], line, given, s, nc, np1, np2);
      }
    }

    /** `gettoken(0, &token)`: the calls yield the tokens of the line as it was given, in order,
        and then 0 for ever. Every word handed out so far is a NUL-terminated string in the buffer. */
    method GetToken() returns (c: char, p1: Option<nat>)
      requires Valid()
      modifies this, buf
      ensures Valid() && line == old(line) && given == old(given) + 1 && buf == old(buf)
      ensures c == Kind(Stream(line, old(given))) && p1 == Start(Stream(line, old(given)))
      ensures Told(line, Stream(line, old(given)), c, p1) && WellCut(line, Stream(line, old(given)))
      ensures AllTerminated(buf[..], line, given)
    {
      StreamWellCut(line, given);
      c, p1 := nc, np1;
      Advance();
      given := given + 1;
    }
  }
}
