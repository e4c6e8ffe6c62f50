/** The streaming SCPI query detector (server/policy.go): a program message expects a response
    exactly when a question mark occurs in its plain text. */
module ScpiPolicy {
  import opened Basics

  const QUERY: byte := 0x3f
  const DOUBLE_QUOTE: byte := 0x22
  const SINGLE_QUOTE: byte := 0x27
  const HASH: byte := 0x23
  const ZERO: byte := 0x30

  predicate IsQuote(c: byte) { c == SINGLE_QUOTE || c == DOUBLE_QUOTE }
  predicate IsDigit(c: byte) { 0x30 <= c <= 0x39 }
  predicate IsLeadDigit(c: byte) { 0x31 <= c <= 0x39 }

  datatype ScpiState = Normal | InString | StringQuote | Hash | BlockLen | BlockData

  /** The whole state of a policy between two calls of Feed. */
  datatype Lexer = Lexer(
    found: bool,
    state: ScpiState,
    quote: byte,
    digits: int,
    length: nat,
    remain: nat)

  const FRESH: Lexer := Lexer(false, Normal, 0, 0, 0, 0)

  function Pow10(n: nat): (p: nat)
    ensures p > 0
  {
    if n == 0 then 1 else 10 * Pow10(n - 1)
  }

  /** What every reachable lexer satisfies. The bounds are what keeps the 64-bit length from wrapping. */
  ghost predicate WellFormed(l: Lexer) {
    && l.length < 1_000_000_000
    && l.remain < 1_000_000_000
    && (l.state.InString? || l.state.StringQuote? ==> IsQuote(l.quote))
    && (l.state.BlockLen? ==> 1 <= l.digits <= 9 && l.length < Pow10(9 - l.digits))
    && (l.state.BlockData? ==> 0 < l.remain)
  }

  // ---------------------------------------------------------------- byte-at-a-time meaning

  /** One byte of ordinary program text. */
  function Plain(l: Lexer, c: byte): Lexer {
    if c == QUERY then l.(found := true)
    else if IsQuote(c) then l.(quote := c, state := InString)
    else if c == HASH then l.(state := Hash)
    else l
  }

  /** One byte in any state, with the transitions that do not consume the byte folded in. */
  function Consume(l: Lexer, c: byte): Lexer {
    if l.found then l
    else match l.state
      case Normal => Plain(l, c)
      case InString => if c == l.quote then l.(state := StringQuote) else l
      case StringQuote =>
        if c == l.quote then l.(state := InString) else Plain(l.(state := Normal, quote := 0), c)
      case Hash =>
        if IsLeadDigit(c) then l.(digits := c - ZERO, length := 0, state := BlockLen)
        else Plain(l.(state := Normal), c)
      case BlockLen =>
        if !IsDigit(c) then Plain(l.(state := Normal), c)
        else
          var m := l.(length := l.length * 10 + (c - ZERO), digits := l.digits - 1);
          if m.digits != 0 then m
          else m.(remain := m.length, state := if m.length == 0 then Normal else BlockData)
      case BlockData =>
        if l.remain <= 1 then l.(remain := 0, state := Normal) else l.(remain := l.remain - 1)
  }

  function Scan(l: Lexer, s: seq<byte>): Lexer
    decreases |s|
  {
    if s == [] then l else Scan(Consume(l, s[0]), s[1..])
  }

  lemma ConsumeWellFormed(l: Lexer, c: byte)
    requires WellFormed(l)
    ensures WellFormed(Consume(l, c))
  {
    if l.state.BlockLen? && IsDigit(c) {
      var k := 9 - l.digits;
      assert Pow10(k + 1) == 10 * Pow10(k);
      Pow10Monotone(k + 1, 9);
    }
  }

  lemma {:induction false} Pow10Monotone(a: nat, b: nat)
    requires a <= b
    ensures Pow10(a) <= Pow10(b)
    ensures Pow10(9) == 1_000_000_000
    decreases b - a
  {
    assert Pow10(3) == 1000;
    assert Pow10(6) == 1000 * Pow10(3);
    if a < b {
      Pow10Monotone(a + 1, b);
    }
  }

  lemma {:induction false} ScanWellFormed(l: Lexer, s: seq<byte>)
    requires WellFormed(l)
    ensures WellFormed(Scan(l, s))
    decreases |s|
  {
    if s != [] {
      ConsumeWellFormed(l, s[0]);
      ScanWellFormed(Consume(l, s[0]), s[1..]);
    }
  }

  lemma {:induction false} ScanAppend(l: Lexer, a: seq<byte>, b: seq<byte>)
    ensures Scan(l, a + b) == Scan(Scan(l, a), b)
    decreases |a|
  {
    if a == [] {
      assert a + b == b;
    } else {
      ScanAppend(Consume(l, a[0]), a[1..], b);
      assert (a + b)[1..] == a[1..] + b;
    }
  }

  lemma {:induction false} ScanFound(l: Lexer, s: seq<byte>)
    requires l.found
    ensures Scan(l, s) == l
  {
    if s != [] {
      ScanFound(l, s[1..]);
    }
  }

  /** Skipping n bytes of a block at once is the same as skipping them one at a time. */
  lemma {:induction false} ScanBlock(l: Lexer, s: seq<byte>)
    requires !l.found && l.state.BlockData? && 0 < l.remain && |s| <= l.remain
    ensures Scan(l, s) == l.(remain := l.remain - |s|, state := if l.remain == |s| then Normal else BlockData)
    decreases |s|
  {
    if s == [] {
    } else if l.remain == 1 {
      assert s[1..] == [];
    } else {
      ScanBlock(Consume(l, s[0]), s[1..]);
    }
  }

  lemma ScanStep(l: Lexer, s: seq<byte>, i: nat)
    requires i < |s|
    ensures Scan(l, s[i..]) == Scan(Consume(l, s[i]), s[i + 1..])
  {
    assert s[i..][1..] == s[i + 1..];
  }

  lemma ScanSkip(l: Lexer, s: seq<byte>, i: nat, n: nat)
    requires !l.found && l.state.BlockData? && 0 < l.remain && n <= l.remain && i + n <= |s|
    ensures Scan(l, s[i..])
         == Scan(l.(remain := l.remain - n, state := if l.remain == n then Normal else BlockData), s[i + n..])
  {
    assert s[i..] == s[i..i + n] + s[i + n..];
    ScanAppend(l, s[i..i + n], s[i + n..]);
    ScanBlock(l, s[i..i + n]);
  }

  /** Feeding a message chunk by chunk. */
  function ScanChunks(l: Lexer, chunks: seq<seq<byte>>): Lexer
    decreases |chunks|
  {
    if chunks == [] then l else ScanChunks(Scan(l, chunks[0]), chunks[1..])
  }

  /** However a message is cut into chunks, the full lexer state afterwards is the same. */
  lemma {:induction false} ChunkingIsIrrelevant(l: Lexer, chunks: seq<seq<byte>>)
    ensures ScanChunks(l, chunks) == Scan(l, Concat(chunks))
    decreases |chunks|
  {
    if chunks != [] {
      ChunkingIsIrrelevant(Scan(l, chunks[0]), chunks[1..]);
      ScanAppend(l, chunks[0], Concat(chunks[1..]));
    }
  }

  // ---------------------------------------------------------------- the policy object

  datatype Disposition = NoResponseExpected | ResponseExpected

  class SCPIQueryPolicy {
    var found: bool
    var state: ScpiState
    var quote: byte
    var digits: int
    var length: uint64
    var remain: uint64

    ghost function View(): Lexer
      reads this
    {
      Lexer(found, state, quote, digits, length, remain)
    }

    ghost predicate Valid()
      reads this
    {
      WellFormed(View())
    }

    constructor ()
      ensures Valid() && View() == FRESH
    {
      found, state, quote, digits, length, remain := false, Normal, 0, 0, 0, 0;
    }

    method Reset()
      modifies this
      ensures Valid() && View() == FRESH
    {
      found, state, quote, digits, length, remain := false, Normal, 0, 0, 0, 0;
    }

    method GetDisposition() returns (d: Disposition)
      ensures d == ResponseExpected <==> View().found
    {
      d := if found then ResponseExpected else NoResponseExpected;
    }

    /** The scanning loop: three transitions re-examine the byte, and block payloads are skipped in bulk. */
    method Feed(chunk: seq<byte>)
      requires Valid()
      modifies this
      ensures Valid()
      ensures View() == Scan(old(View()), chunk)
    {
      ghost var goal := Scan(View(), chunk);
      var i := 0;
      while i < |chunk|
        invariant 0 <= i <= |chunk|
        invariant Valid()
        invariant Scan(View(), chunk[i..]) == goal
        decreases |chunk| - i, if state.StringQuote? || state.Hash? || state.BlockLen? then 1 else 0
      {
        if found {
          ScanFound(View(), chunk[i..]);
          return;
        }
        ghost var l, i0 := View(), i;
        ConsumeWellFormed(l, chunk[i]);
        i := FeedOne(chunk, i);
        if l.state.BlockData? {
          ScanSkip(l, chunk, i0, i - i0);
        } else {
          ScanStep(l, chunk, i0);
          if i == i0 {
            ScanStep(View(), chunk, i0);
          }
        }
      }
      assert chunk[i..] == [];
    }

    /** One round of the loop: the switch on the lexical state. */
    method FeedOne(chunk: seq<byte>, i: nat) returns (j: nat)
      requires Valid() && !found && i < |chunk|
      modifies this
      ensures old(state).BlockData? ==>
        && i < j <= |chunk| && j - i <= old(remain)
        && View() == old(View()).(remain := old(remain) - (j - i),
                                  state := if old(remain) == j - i then Normal else BlockData)
      ensures !old(state).BlockData? && j != i ==> j == i + 1 && View() == Consume(old(View()), chunk[i])
      ensures !old(state).BlockData? && j == i ==>
        && state.Normal? && !old(state).Normal? && !old(state).InString?
        && Consume(View(), chunk[i]) == Consume(old(View()), chunk[i])
        && View() == old(View()).(state := Normal, quote := quote)
    {
      var c := chunk[i];
      j := i;
      match state {
        case Normal =>
          if c == QUERY {
            found := true;
          } else if IsQuote(c) {
            quote := c;
            state := InString;
          } else if c == HASH {
            state := Hash;
          }
          j := i + 1;
        case InString =>
          if c == quote {
            state := StringQuote;
          }
          j := i + 1;
        case StringQuote =>
          if c == quote {
            state := InString;
            return i + 1;
          }
          state := Normal;
          quote := 0;
        case Hash =>
          if IsLeadDigit(c) {
            digits := c - ZERO;
            length := 0;
            state := BlockLen;
            return i + 1;
          }
          state := Normal;
        case BlockLen =>
          if !IsDigit(c) {
            state := Normal;
            return;
          }
          length := length * 10 + (c - ZERO);
          digits := digits - 1;
          j := i + 1;
          if digits == 0 {
            remain := length;
            state := BlockData;
            if remain == 0 {
              state := Normal;
            }
          }
        case BlockData =>
          var available := |chunk| - i;
          var skip := if remain < available then remain else available;
          j := i + skip;
          remain := remain - skip;
          if remain == 0 {
            state := Normal;
          }
      }
    }
  }
}
