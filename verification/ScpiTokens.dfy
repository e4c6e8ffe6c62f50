/** A declarative tokenisation of program messages, with character classes of its own, and the proof that the
    scanner finds a query exactly when the tokens contain a plain question mark. */
module ScpiTokens {
  import opened Basics
  import opened ScpiPolicy

  /** The lexical elements of a program message. A message may end inside any of the last three kinds. */
  datatype Token =
    | Text(b: byte)                                     // a byte of program text
    | Quoted(q: byte, body: seq<byte>)                  // a closed string, quotes in the body doubled
    | Block(digits: seq<byte>, payload: seq<byte>)      // "#", digit count, digits, that many bytes
    | BareHash                                          // "#" not followed by a digit 1 to 9
    | BadHeader(count: byte, digits: seq<byte>)         // a block header with too few length digits
    | OpenQuoted(q: byte, body: seq<byte>)
    | OpenBlock(digits: seq<byte>, payload: seq<byte>)

  /** A string body with every occurrence of the quote doubled. */
  function Doubled(body: seq<byte>, q: byte): seq<byte> {
    if body == [] then []
    else (if body[0] == q then [q, q] else [body[0]]) + Doubled(body[1..], q)
  }

  /** The two quotes, " and '. */
  predicate Delimits(c: byte) { c == 0x22 || c == 0x27 }

  /** 0 to 9. */
  predicate Digit(c: byte) { 0x30 <= c <= 0x39 }

  predicate AllDigits(ds: seq<byte>) {
    forall i | 0 <= i < |ds| :: Digit(ds[i])
  }

  /** The decimal number continuing acc with the digits ds. */
  function Decimal(acc: nat, ds: seq<byte>): nat
    requires AllDigits(ds)
    decreases |ds|
  {
    if ds == [] then acc else Decimal(acc * 10 + (ds[0] - 0x30), ds[1..])
  }

  /** "#", one digit that says how many length digits follow, and those digits. */
  function Header(count: byte, digits: seq<byte>): seq<byte>
    requires count <= 9
  {
    [0x23, 0x30 + count] + digits
  }

  ghost predicate HeaderOk(digits: seq<byte>) {
    1 <= |digits| <= 9 && AllDigits(digits)
  }

  /** Whether token t may stand in front of the remaining text. */
  ghost predicate Fits(t: Token, rest: seq<byte>) {
    match t
    case Text(b) => !Delimits(b) && b != 0x23
    case Quoted(q, body) => Delimits(q) && (rest == [] || rest[0] != q)
    case Block(digits, payload) => HeaderOk(digits) && |payload| == Decimal(0, digits)
    case BareHash => rest == [] || !Digit(rest[0]) || rest[0] == 0x30
    case BadHeader(count, digits) =>
      1 <= count <= 9 && |digits| < count && AllDigits(digits) && (rest == [] || !Digit(rest[0]))
    case OpenQuoted(q, body) => Delimits(q) && rest == []
    case OpenBlock(digits, payload) => HeaderOk(digits) && |payload| < Decimal(0, digits) && rest == []
  }

  /** The bytes of a token. */
  ghost function Spell(t: Token): seq<byte>
    requires exists rest :: Fits(t, rest)
  {
    match t
    case Text(b) => [b]
    case Quoted(q, body) => [q] + Doubled(body, q) + [q]
    case Block(digits, payload) => Header(|digits|, digits) + payload
    case BareHash => [0x23]
    case BadHeader(count, digits) => Header(count, digits)
    case OpenQuoted(q, body) => [q] + Doubled(body, q)
    case OpenBlock(digits, payload) => Header(|digits|, digits) + payload
  }

  /** ts is a tokenisation of s. */
  ghost predicate Tokenises(ts: seq<Token>, s: seq<byte>)
    decreases |ts|
  {
    if ts == [] then s == []
    else exists rest :: Fits(ts[0], rest) && s == Spell(ts[0]) + rest && Tokenises(ts[1..], rest)
  }

  // ---------------------------------------------------------------- scanning one token

  /** The scanner stands between two tokens: whatever comes next is read as ordinary text. */
  ghost predicate AtBoundary(l: Lexer, rest: seq<byte>) {
    && !l.found
    && (rest == [] ||
        match l.state
        case Normal => true
        case StringQuote => rest[0] != l.quote
        case Hash => !IsLeadDigit(rest[0])
        case BlockLen => !IsDigit(rest[0])
        case _ => false)
  }

  lemma {:induction false} ScanBody(l: Lexer, body: seq<byte>)
    requires !l.found && l.state.InString?
    ensures Scan(l, Doubled(body, l.quote)) == l
  {
    if body != [] {
      var head := if body[0] == l.quote then [l.quote, l.quote] else [body[0]];
      ScanAppend(l, head, Doubled(body[1..], l.quote));
      if body[0] == l.quote {
        ScanTwo(l, l.quote, l.quote);
      } else {
        ScanOne(l, body[0]);
      }
      ScanBody(l, body[1..]);
    }
  }

  lemma ScanOne(l: Lexer, c: byte)
    ensures Scan(l, [c]) == Consume(l, c)
  {
    assert [c][1..] == [];
  }

  lemma ScanTwo(l: Lexer, c: byte, d: byte)
    ensures Scan(l, [c, d]) == Consume(Consume(l, c), d)
  {
    assert [c, d][1..] == [d];
    ScanOne(Consume(l, c), d);
  }

  lemma {:induction false} ScanDigits(l: Lexer, ds: seq<byte>)
    requires !l.found && l.state.BlockLen? && AllDigits(ds) && |ds| <= l.digits && 0 < l.digits
    ensures var n := Decimal(l.length, ds);
            Scan(l, ds) == if |ds| < l.digits then l.(length := n, digits := l.digits - |ds|)
                           else l.(length := n, digits := 0, remain := n,
                                   state := if n == 0 then Normal else BlockData)
    decreases |ds|
  {
    if ds != [] {
      var m := Consume(l, ds[0]);
      if l.digits > 1 {
        ScanDigits(m, ds[1..]);
      } else {
        assert ds[1..] == [];
        assert Scan(m, []) == m;
      }
    }
  }

  /** A block header at a boundary puts the scanner in the state that reads its length. */
  lemma ScanHeader(l: Lexer, count: byte, digits: seq<byte>, rest: seq<byte>) returns (m: Lexer)
    requires 1 <= count <= 9 && AtBoundary(l, Header(count, digits) + rest)
    ensures m.state.BlockLen? && !m.found && m.digits == count && m.length == 0
    ensures Scan(l, Header(count, digits)) == Scan(m, digits)
  {
    m := Consume(Consume(l, HASH), ZERO + count);
    ScanAppend(l, [HASH, ZERO + count], digits);
    ScanTwo(l, HASH, ZERO + count);
  }

  lemma ScanString(l: Lexer, q: byte, body: seq<byte>, rest: seq<byte>)
    requires IsQuote(q) && AtBoundary(l, [q] + Doubled(body, q) + rest)
    ensures var m := Scan(l, [q] + Doubled(body, q)); !m.found && m.state.InString? && m.quote == q
  {
    ScanAppend(l, [q], Doubled(body, q));
    ScanOne(l, q);
    ScanBody(Consume(l, q), body);
  }

  lemma ScanBlockToken(l: Lexer, digits: seq<byte>, payload: seq<byte>, rest: seq<byte>)
    requires HeaderOk(digits) && |payload| <= Decimal(0, digits)
    requires AtBoundary(l, Header(|digits|, digits) + payload + rest)
    ensures var m := Scan(l, Header(|digits|, digits) + payload);
            !m.found && (|payload| == Decimal(0, digits) ==> m.state.Normal?)
  {
    assert Header(|digits|, digits) + payload + rest == Header(|digits|, digits) + (payload + rest);
    var m := ScanHeader(l, |digits|, digits, payload + rest);
    ScanDigits(m, digits);
    ScanAppend(l, Header(|digits|, digits), payload);
    if Decimal(0, digits) == 0 {
      assert payload == [];
    } else {
      ScanBlock(Scan(m, digits), payload);
    }
  }

  /** Scanning one token from a boundary finds a query only in a plain question mark and ends at a boundary. */
  lemma ScanToken(l: Lexer, t: Token, rest: seq<byte>)
    requires Fits(t, rest) && AtBoundary(l, Spell(t) + rest)
    ensures var m := Scan(l, Spell(t)); if t == Text(0x3f) then m.found else AtBoundary(m, rest)
  {
    match t
    case Text(b) =>
      ScanOne(l, b);
    case Quoted(q, body) =>
      assert Spell(t) + rest == [q] + Doubled(body, q) + ([q] + rest);
      ScanString(l, q, body, [q] + rest);
      ScanAppend(l, [q] + Doubled(body, q), [q]);
      ScanOne(Scan(l, [q] + Doubled(body, q)), q);
    case Block(digits, payload) =>
      ScanBlockToken(l, digits, payload, rest);
    case BareHash =>
      ScanOne(l, HASH);
    case BadHeader(count, digits) =>
      var m := ScanHeader(l, count, digits, rest);
      ScanDigits(m, digits);
    case OpenQuoted(q, body) =>
      ScanString(l, q, body, rest);
    case OpenBlock(digits, payload) =>
      ScanBlockToken(l, digits, payload, rest);
  }

  lemma {:induction false} ScanTokens(l: Lexer, ts: seq<Token>, s: seq<byte>)
    requires Tokenises(ts, s) && AtBoundary(l, s)
    ensures Scan(l, s).found <==> Text(0x3f) in ts
    decreases |ts|
  {
    if ts != [] {
      var rest :| Fits(ts[0], rest) && s == Spell(ts[0]) + rest && Tokenises(ts[1..], rest);
      ScanToken(l, ts[0], rest);
      ScanAppend(l, Spell(ts[0]), rest);
      if ts[0] == Text(QUERY) {
        ScanFound(Scan(l, Spell(ts[0])), rest);
      } else {
        ScanTokens(Scan(l, Spell(ts[0])), ts[1..], rest);
      }
    }
  }

  // ---------------------------------------------------------------- every message has a tokenisation

  /** The longest string body at the front of s: it ends at a lone quote or at the end of the message. */
  lemma {:induction false} SplitString(s: seq<byte>, q: byte) returns (body: seq<byte>, rest: seq<byte>, closed: bool)
    ensures s == Doubled(body, q) + (if closed then [q] else []) + rest
    ensures closed ==> rest == [] || rest[0] != q
    ensures !closed ==> rest == []
    ensures |rest| <= |s|
    decreases |s|
  {
    if s == [] {
      body, rest, closed := [], [], false;
    } else if s[0] != q {
      body, rest, closed := SplitString(s[1..], q);
      assert s == [s[0]] + s[1..];
      body := [s[0]] + body;
    } else if |s| > 1 && s[1] == q {
      body, rest, closed := SplitString(s[2..], q);
      assert s == [q, q] + s[2..];
      body := [q] + body;
    } else {
      body, rest, closed := [], s[1..], true;
      assert s == [q] + s[1..];
    }
  }

  lemma {:induction false} SplitDigits(s: seq<byte>, n: nat) returns (ds: seq<byte>)
    ensures |ds| <= n && ds <= s && AllDigits(ds)
    ensures |ds| == n || |ds| == |s| || !IsDigit(s[|ds|])
  {
    if n == 0 || s == [] || !IsDigit(s[0]) {
      ds := [];
    } else {
      ds := SplitDigits(s[1..], n - 1);
      ds := [s[0]] + ds;
    }
  }

  /** The first token of a non-empty message. */
  lemma FirstToken(s: seq<byte>) returns (t: Token, rest: seq<byte>)
    requires s != []
    ensures Fits(t, rest) && s == Spell(t) + rest && |rest| < |s|
  {
    var c := s[0];
    assert s == [c] + s[1..];
    if IsQuote(c) {
      var body, r, closed := SplitString(s[1..], c);
      rest := r;
      t := if closed then Quoted(c, body) else OpenQuoted(c, body);
      assert Fits(t, rest);
      assert s == Spell(t) + rest;
    } else if c == HASH {
      t, rest := HashToken(s);
    } else {
      t, rest := Text(c), s[1..];
      assert Fits(t, rest);
    }
  }

  lemma HashToken(s: seq<byte>) returns (t: Token, rest: seq<byte>)
    requires s != [] && s[0] == HASH
    ensures Fits(t, rest) && s == Spell(t) + rest && |rest| < |s|
  {
    if |s| == 1 || !IsLeadDigit(s[1]) {
      t, rest := BareHash, s[1..];
      assert Fits(t, rest);
    } else {
      var count := s[1] - ZERO;
      var digits := SplitDigits(s[2..], count);
      var tail := s[2 + |digits|..];
      assert s == Header(count, digits) + tail;
      if |digits| < count {
        t, rest := BadHeader(count, digits), tail;
        assert Fits(t, rest);
      } else {
        var n := Decimal(0, digits);
        if |tail| < n {
          t, rest := OpenBlock(digits, tail), [];
          assert Fits(t, rest);
          assert s == Spell(t) + rest;
        } else {
          t, rest := Block(digits, tail[..n]), tail[n..];
          assert Fits(t, rest);
          assert s == Spell(t) + rest;
        }
      }
    }
  }

  lemma {:induction false} Tokenise(s: seq<byte>) returns (ts: seq<Token>)
    ensures Tokenises(ts, s)
    decreases |s|
  {
    if s == [] {
      ts := [];
    } else {
      var t, rest := FirstToken(s);
      var us := Tokenise(rest);
      ts := [t] + us;
      assert ts[1..] == us;
    }
  }

  // ---------------------------------------------------------------- the main results

  /** The message contains a question mark in plain text, outside strings and block data. */
  ghost predicate HasPlainQuery(s: seq<byte>) {
    exists ts :: Tokenises(ts, s) && Text(0x3f) in ts
  }

  /** Every message has a tokenisation, and the scanner's answer is that of every tokenisation. */
  lemma QueryDetection(s: seq<byte>, ts: seq<Token>)
    ensures exists us :: Tokenises(us, s)
    ensures Tokenises(ts, s) ==> (Scan(FRESH, s).found <==> Text(0x3f) in ts)
    ensures Scan(FRESH, s).found <==> HasPlainQuery(s)
  {
    var us := Tokenise(s);
    ScanTokens(FRESH, us, s);
    forall vs | Tokenises(vs, s)
      ensures Scan(FRESH, s).found <==> Text(0x3f) in vs
    {
      ScanTokens(FRESH, vs, s);
    }
  }

  /** In a message of one quoted string nothing is a query; after it, a question mark is. */
  lemma QuotesHide(q: byte, body: seq<byte>)
    requires q == 0x22 || q == 0x27
    requires q !in body
    ensures !Scan(FRESH, [q] + body + [q]).found && Scan(FRESH, [q] + body + [q] + [0x3f]).found
  {
    NothingToDouble(body, q);
    var t := Quoted(q, body);
    assert Fits(t, []) && Fits(t, [0x3f]) && Fits(Text(0x3f), []);
    assert Spell(t) + [] == [q] + body + [q] && Tokenises([], []);
    assert [t][1..] == [] && Tokenises([t], [q] + body + [q]);
    assert [0x3f] == Spell(Text(0x3f)) + [] && [Text(0x3f)][1..] == [] && Tokenises([Text(0x3f)], [0x3f]);
    assert [t, Text(0x3f)][1..] == [Text(0x3f)];
    assert Tokenises([t, Text(0x3f)], [q] + body + [q] + [0x3f]);
    QueryDetection([q] + body + [q], [t]);
    QueryDetection([q] + body + [q] + [0x3f], [t, Text(0x3f)]);
  }

  lemma {:induction false} NothingToDouble(body: seq<byte>, q: byte)
    requires q !in body
    ensures Doubled(body, q) == body
  {
    if body != [] {
      NothingToDouble(body[1..], q);
      assert body == [body[0]] + body[1..];
    }
  }

  /** The policy object answers by that definition for every message in every chunking. */
  method Classify(chunks: seq<seq<byte>>) returns (d: Disposition)
    ensures d == ResponseExpected <==> HasPlainQuery(Concat(chunks))
  {
    var p := new SCPIQueryPolicy();
    for i := 0 to |chunks|
      invariant p.Valid() && p.View() == Scan(FRESH, Concat(chunks[..i]))
      invariant fresh(p)
    {
      p.Feed(chunks[i]);
      ScanAppend(FRESH, Concat(chunks[..i]), chunks[i]);
      ConcatSnoc(chunks[..i], chunks[i]);
      assert chunks[..i + 1] == chunks[..i] + [chunks[i]];
    }
    assert chunks[..|chunks|] == chunks;
    QueryDetection(Concat(chunks), []);
    d := p.GetDisposition();
  }

  // ---------------------------------------------------------------- the doubled quote needs no state

  /** The same scanner without the state that waits for a second quote: a quote simply closes the string. */
  function SimpleConsume(l: Lexer, c: byte): Lexer {
    if !l.found && l.state.InString? && c == l.quote then l.(state := Normal, quote := 0) else Consume(l, c)
  }

  function SimpleScan(l: Lexer, s: seq<byte>): Lexer
    decreases |s|
  {
    if s == [] then l else SimpleScan(SimpleConsume(l, s[0]), s[1..])
  }

  /** What the scanner still remembers that matters: the closed string and stale block fields are forgotten. */
  function Core(l: Lexer): Lexer {
    if l.found then FRESH.(found := true)
    else match l.state
      case Normal => FRESH
      case StringQuote => FRESH
      case InString => FRESH.(state := InString, quote := l.quote)
      case Hash => FRESH.(state := Hash)
      case BlockLen => FRESH.(state := BlockLen, digits := l.digits, length := l.length)
      case BlockData => FRESH.(state := BlockData, remain := l.remain)
  }

  lemma CloseAndReopenStep(l: Lexer, m: Lexer, c: byte)
    requires WellFormed(l) && !m.state.StringQuote? && Core(l) == Core(m)
    ensures !SimpleConsume(m, c).state.StringQuote? && Core(Consume(l, c)) == Core(SimpleConsume(m, c))
  {
    hide Pow10;
  }

  lemma {:induction false} CloseAndReopen(l: Lexer, m: Lexer, s: seq<byte>)
    requires WellFormed(l) && !m.state.StringQuote? && Core(l) == Core(m)
    ensures Scan(l, s).found == SimpleScan(m, s).found
    decreases |s|
  {
    if s != [] {
      ConsumeWellFormed(l, s[0]);
      CloseAndReopenStep(l, m, s[0]);
      hide Consume, SimpleConsume, WellFormed;
      CloseAndReopen(Consume(l, s[0]), SimpleConsume(m, s[0]), s[1..]);
    }
  }

  /** Dropping the doubled-quote state never changes the answer. */
  lemma DoubledQuoteStateIsRedundant(s: seq<byte>)
    ensures Scan(FRESH, s).found == SimpleScan(FRESH, s).found
  {
    CloseAndReopen(FRESH, FRESH, s);
  }

  // ---------------------------------------------------------------- what a left-over state changes

  lemma SameCoreStep(l: Lexer, m: Lexer, c: byte)
    requires WellFormed(l) && WellFormed(m) && Core(l) == Core(m)
    ensures Core(Consume(l, c)) == Core(Consume(m, c))
  {
    hide Pow10;
  }

  lemma {:induction false} SameCore(l: Lexer, m: Lexer, s: seq<byte>)
    requires WellFormed(l) && WellFormed(m) && Core(l) == Core(m)
    ensures Core(Scan(l, s)) == Core(Scan(m, s))
    decreases |s|
  {
    if s != [] {
      ConsumeWellFormed(l, s[0]);
      ConsumeWellFormed(m, s[0]);
      SameCoreStep(l, m, s[0]);
      hide Consume, WellFormed, Core;
      SameCore(Consume(l, s[0]), Consume(m, s[0]), s[1..]);
    }
  }

  function Repeat(c: byte, n: int): (s: seq<byte>)
    ensures n >= 0 ==> |s| == n
    ensures forall i | 0 <= i < |s| :: s[i] == c
  {
    if n <= 0 then [] else [c] + Repeat(c, n - 1)
  }

  lemma {:induction false} DecimalGrows(acc: nat, ds: seq<byte>)
    requires AllDigits(ds) && ds != [] && ds[0] != ZERO
    ensures Decimal(acc, ds) > 0
    decreases |ds|
  {
    DecimalPositive(acc * 10 + (ds[0] - ZERO), ds[1..]);
  }

  lemma {:induction false} DecimalPositive(acc: nat, ds: seq<byte>)
    requires AllDigits(ds) && acc > 0
    ensures Decimal(acc, ds) > 0
    decreases |ds|
  {
    if ds != [] {
      DecimalPositive(acc * 10 + (ds[0] - ZERO), ds[1..]);
    }
  }

  lemma {:induction false} FreshRunsThroughNines(l: Lexer, s: seq<byte>)
    requires !l.found && l.state.Normal? && forall i | 0 <= i < |s| :: s[i] == 0x39
    ensures Scan(l, s) == l
  {
    if s != [] {
      FreshRunsThroughNines(l, s[1..]);
    }
  }

  /** A text in which only a scanner that starts by skipping n bytes sees a query: the skipped bytes open a
      string for everyone else. */
  function Hidden(n: nat): seq<byte>
    requires n > 0
  {
    [DOUBLE_QUOTE] + Repeat(0x61, n - 1) + [QUERY]
  }

  /** A text in which the left-over state finds a query and a fresh one does not. */
  function Lure(l: Lexer): seq<byte> {
    if l.found then []
    else match l.state
      case InString => [l.quote, QUERY]
      case Hash => [0x31, 0x31] + Hidden(1)
      case BlockLen =>
        var nines := Repeat(0x39, l.digits);
        nines + if Decimal(l.length, nines) > 0 then Hidden(Decimal(l.length, nines)) else []
      case BlockData => if l.remain > 0 then Hidden(l.remain) else []
      case _ => []
  }

  lemma HiddenFromOthers(l: Lexer, n: nat)
    requires n > 0 && !l.found && l.state.Normal?
    ensures !Scan(l, Hidden(n)).found
  {
    var body := Repeat(0x61, n - 1) + [QUERY];
    assert Hidden(n) == [DOUBLE_QUOTE] + body;
    ScanAppend(l, [DOUBLE_QUOTE], body);
    ScanOne(l, DOUBLE_QUOTE);
    StaysInString(Consume(l, DOUBLE_QUOTE), body);
  }

  lemma {:induction false} StaysInString(l: Lexer, s: seq<byte>)
    requires !l.found && l.state.InString? && l.quote !in s
    ensures Scan(l, s) == l
  {
    if s != [] {
      StaysInString(l, s[1..]);
    }
  }

  lemma SeenAfterBlock(l: Lexer)
    requires !l.found && l.state.BlockData? && l.remain > 0
    ensures Scan(l, Hidden(l.remain)).found
  {
    var skipped := [DOUBLE_QUOTE] + Repeat(0x61, l.remain - 1);
    assert Hidden(l.remain) == skipped + [QUERY];
    ScanAppend(l, skipped, [QUERY]);
    ScanBlock(l, skipped);
    ScanOne(Scan(l, skipped), QUERY);
  }

  lemma LureTells(l: Lexer)
    requires WellFormed(l) && Core(l) != FRESH
    ensures Scan(l, Lure(l)).found && !Scan(FRESH, Lure(l)).found
  {
    if !l.found {
      match l.state
      case InString =>
        ScanTwo(l, l.quote, QUERY);
        ScanTwo(FRESH, l.quote, QUERY);
      case Hash =>
        LureAfter(l, [0x31, 0x31], 1);
        ScanTwo(l, 0x31, 0x31);
        ScanTwo(FRESH, 0x31, 0x31);
      case BlockLen =>
        var nines := Repeat(0x39, l.digits);
        ScanDigits(l, nines);
        DecimalGrows(l.length, nines);
        FreshRunsThroughNines(FRESH, nines);
        LureAfter(l, nines, Decimal(l.length, nines));
      case BlockData =>
        SeenAfterBlock(l);
        HiddenFromOthers(FRESH, l.remain);
    }
  }

  lemma LureAfter(l: Lexer, s: seq<byte>, n: nat)
    requires n > 0
    ensures var m := Scan(l, s);
            !m.found && m.state.BlockData? && m.remain == n ==> Scan(l, s + Hidden(n)).found
    ensures Scan(FRESH, s) == FRESH ==> !Scan(FRESH, s + Hidden(n)).found
  {
    ScanAppend(l, s, Hidden(n));
    ScanAppend(FRESH, s, Hidden(n));
    var m := Scan(l, s);
    if !m.found && m.state.BlockData? && m.remain == n {
      SeenAfterBlock(m);
    }
    HiddenFromOthers(FRESH, n);
  }

  /** The state classifies every later message as a fresh one would. */
  ghost predicate SameAnswers(l: Lexer) { forall s :: Scan(l, s).found == Scan(FRESH, s).found }

  /** A left-over lexer state classifies every later message as a fresh one would, exactly when no query
      had been found and the text stood outside strings, block headers and block data. */
  lemma ResidueIsHarmless(l: Lexer)
    requires WellFormed(l)
    ensures SameAnswers(l) <==> !l.found && (l.state.Normal? || l.state.StringQuote?)
    ensures SameAnswers(l) <==> Core(l) == FRESH
  {
    if !l.found && (l.state.Normal? || l.state.StringQuote?) {
      forall s ensures Scan(l, s).found == Scan(FRESH, s).found {
        SameCore(l, FRESH, s);
        hide Scan, WellFormed;
      }
    } else {
      LureTells(l);
      hide Scan, Lure;
    }
  }
}
