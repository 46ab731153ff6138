/** The two hand-written Telnet IAC filters (agent/console_extractor.py and agent/readiness.py):
    a byte cursor with a nested scan for the end of a subnegotiation (RFC 854, "TELNET COMMAND
    STRUCTURE"; RFC 855 for the subnegotiation form). */
module TelnetFilter {
  import opened Wrappers

  newtype byte = b: int | 0 <= b < 256

  const IAC: byte := 0xFF
  const DONT: byte := 0xFE
  const DO: byte := 0xFD
  const WONT: byte := 0xFC
  const WILL: byte := 0xFB
  const SB: byte := 0xFA
  const SE: byte := 0xF0

  predicate IsNegotiation(c: byte) { c == WILL || c == WONT || c == DO || c == DONT }

  /** How far a subnegotiation's payload reaches: the position just after the first IAC SE, or the
      end of the data. */
  function AfterSE(d: seq<byte>): (n: nat)
    ensures n <= |d|
  {
    if d == [] then 0
    else if d[0] == IAC && |d| > 1 && d[1] == SE then 2
    else 1 + AfterSE(d[1..])
  }

  /** How many bytes the first token of `d` takes. */
  function TokenLength(d: seq<byte>): (n: nat)
    requires d != []
    ensures 0 < n <= |d|
  {
    if d[0] != IAC || |d| == 1 then 1
    else if IsNegotiation(d[1]) && |d| > 2 then 3
    else if d[1] == SB then 2 + AfterSE(d[2..])
    else 2
  }

  /** The data byte the first token stands for, if any. */
  function TokenData(d: seq<byte>): seq<byte> {
    if d == [] then []
    else if d[0] != IAC || |d| == 1 then [d[0]]
    else if d[1] == IAC then [IAC]
    else []
  }

  /** The refusal sent for the first token, if any: WONT for DO, DONT for WILL. */
  function TokenReply(d: seq<byte>): seq<byte> {
    if |d| > 2 && d[0] == IAC && d[1] == DO then [IAC, WONT, d[2]]
    else if |d| > 2 && d[0] == IAC && d[1] == WILL then [IAC, DONT, d[2]]
    else []
  }

  /** The data that is left when the commands are taken out. */
  function Filter(d: seq<byte>): seq<byte> {
    if d == [] then [] else TokenData(d) + Filter(d[TokenLength(d)..])
  }

  /** All refusals, in order. */
  function Replies(d: seq<byte>): seq<byte> {
    if d == [] then [] else TokenReply(d) + Replies(d[TokenLength(d)..])
  }

  // ---- The two loops ----

  /** The nested scan: just past the IAC SE that ends the payload starting at `start`, or the end. */
  method SkipSubnegotiation(data: seq<byte>, start: nat) returns (i: nat)
    requires start <= |data|
    ensures i == start + AfterSE(data[start..])
  {
    i := start;
    while i < |data|
      invariant start <= i <= |data| && AfterSE(data[start..]) == i - start + AfterSE(data[i..])
    {
      assert data[i..][1..] == data[i + 1..];
      if data[i] == IAC && i + 1 < |data| && data[i + 1] == SE {
        return i + 2;
      }
      i := i + 1;
    }
  }

  /** The token at position `i`, in terms of the bytes from `i` on. */
  lemma TokenAt(data: seq<byte>, i: nat)
    requires i < |data|
    ensures TokenLength(data[i..])
         == if data[i] != IAC || i + 1 == |data| then 1
            else if IsNegotiation(data[i + 1]) && i + 2 < |data| then 3
            else if data[i + 1] == SB then 2 + AfterSE(data[i + 2..])
            else 2
    ensures TokenData(data[i..])
         == if data[i] != IAC || i + 1 == |data| then [data[i]] else if data[i + 1] == IAC then [IAC] else []
    ensures TokenReply(data[i..])
         == if data[i] == IAC && i + 2 < |data| && data[i + 1] == DO then [IAC, WONT, data[i + 2]]
            else if data[i] == IAC && i + 2 < |data| && data[i + 1] == WILL then [IAC, DONT, data[i + 2]]
            else []
  {
    if i + 1 < |data| { assert data[i..][2..] == data[i + 2..]; }
  }

  /** Where the cursor is after `k` rounds. */
  function Cursor(data: seq<byte>, k: nat): (i: nat)
    ensures i <= |data|
  {
    if k == 0 then 0
    else
      var i := Cursor(data, k - 1);
      if i < |data| then i + TokenLength(data[i..]) else i
  }

  /** What `one` gives for the tokens of the first `k` rounds. */
  function Gathered(one: seq<byte> -> seq<byte>, data: seq<byte>, k: nat): seq<byte> {
    if k == 0 then [] else Gathered(one, data, k - 1) + one(data[Cursor(data, k - 1)..])
  }

  ghost predicate Unfolds(one: seq<byte> -> seq<byte>, all: seq<byte> -> seq<byte>, d: seq<byte>) {
    d != [] ==> all(d) == one(d) + all(d[TokenLength(d)..])
  }

  lemma NextRound(one: seq<byte> -> seq<byte>, all: seq<byte> -> seq<byte>, data: seq<byte>, k: nat)
    requires k > 0 && one([]) == [] && Unfolds(one, all, data[Cursor(data, k - 1)..])
    ensures var d := data[Cursor(data, k - 1)..]; all(d) == one(d) + all(data[Cursor(data, k)..])
  {
    var i := Cursor(data, k - 1);
    var d := data[i..];
    if i < |data| {
      assert d[TokenLength(d)..] == data[Cursor(data, k)..];
    } else {
      assert d == [] && [] + all(d) == all(d);
    }
  }

  /** What was gathered, followed by what `all` gives for the rest, is what `all` gives for everything. */
  lemma {:induction false} GatheredThenRest(one: seq<byte> -> seq<byte>, all: seq<byte> -> seq<byte>, data: seq<byte>,
                                            k: nat)
    requires one([]) == [] && forall d :: Unfolds(one, all, d)
    ensures all(data) == Gathered(one, data, k) + all(data[Cursor(data, k)..])
  {
    if k == 0 {
      assert data[0..] == data;
    } else {
      GatheredThenRest(one, all, data, k - 1);
      var d := data[Cursor(data, k - 1)..];
      assert Unfolds(one, all, d);
      NextRound(one, all, data, k);
      Associative(Gathered(one, data, k - 1), one(d), all(data[Cursor(data, k)..]));
    }
  }

  lemma AtEnd(data: seq<byte>, k: nat)
    requires Cursor(data, k) == |data|
    ensures Gathered(TokenData, data, k) == Filter(data) && Gathered(TokenReply, data, k) == Replies(data)
  {
    assert forall d :: Unfolds(TokenData, Filter, d);
    assert forall d :: Unfolds(TokenReply, Replies, d);
    GatheredThenRest(TokenData, Filter, data, k);
    GatheredThenRest(TokenReply, Replies, data, k);
    assert data[|data|..] == [];
  }

  /** One round of the bridge script's loop: the byte for the terminal, the refusal for the socket,
      and where the cursor goes. */
  method ConsoleToken(data: seq<byte>, i: nat) returns (next: nat, out: seq<byte>, sent: seq<byte>)
    requires i < |data|
    ensures next == i + TokenLength(data[i..]) && out == TokenData(data[i..]) && sent == TokenReply(data[i..])
  {
    TokenAt(data, i);
    out, sent := [], [];
    if data[i] == IAC && i + 1 < |data| {
      var cmd := data[i + 1];
      if cmd == IAC {
        out, next := [IAC], i + 2;
      } else if IsNegotiation(cmd) && i + 2 < |data| {
        var opt := data[i + 2];
        if cmd == DO {
          sent := [IAC, WONT, opt];
        } else if cmd == WILL {
          sent := [IAC, DONT, opt];
        }
        next := i + 3;
      } else if 0xF1 <= cmd <= 0xFA {
        if cmd == SB {
          next := SkipSubnegotiation(data, i + 2);
        } else {
          next := i + 2;
        }
      } else {
        next := i + 2;
      }
    } else {
      out, next := [data[i]], i + 1;
    }
  }

  /** The bridge script's loop: data goes to the terminal, refusals to the socket. */
  method ConsoleFilter(data: seq<byte>) returns (out: seq<byte>, sent: seq<byte>)
    ensures out == Filter(data) && sent == Replies(data)
  {
    out, sent := [], [];
    var i := 0;
    ghost var k := 0;
    while i < |data|
      invariant i == Cursor(data, k) && out == Gathered(TokenData, data, k) && sent == Gathered(TokenReply, data, k)
      decreases |data| - i
    {
      var next, o, r := ConsoleToken(data, i);
      out, sent, i, k := out + o, sent + r, next, k + 1;
    }
    AtEnd(data, k);
  }

  /** One round of the readiness probe's loop: the same cases in another arrangement. */
  method ReadinessToken(data: seq<byte>, i: nat) returns (next: nat, clean: seq<byte>)
    requires i < |data|
    ensures next == i + TokenLength(data[i..]) && clean == TokenData(data[i..])
  {
    TokenAt(data, i);
    clean := [];
    if data[i] == IAC && i + 1 < |data| {
      var cmd := data[i + 1];
      if cmd == IAC {
        clean, next := [IAC], i + 2;
      } else if IsNegotiation(cmd) && i + 2 < |data| {
        next := i + 3;
      } else if cmd == SB {
        next := SkipSubnegotiation(data, i + 2);
      } else {
        next := i + 2;
      }
    } else {
      clean, next := [data[i]], i + 1;
    }
  }

  /** The readiness probe's loop, which sends no refusals. */
  method ReadinessFilter(data: seq<byte>) returns (clean: seq<byte>)
    ensures clean == Filter(data)
  {
    clean := [];
    var i := 0;
    ghost var k := 0;
    while i < |data|
      invariant i == Cursor(data, k) && clean == Gathered(TokenData, data, k)
      decreases |data| - i
    {
      var next, c := ReadinessToken(data, i);
      clean, i, k := clean + c, next, k + 1;
    }
    AtEnd(data, k);
  }

  // ---- Round trip ----

  /** What a Telnet peer sends. */
  datatype Token = Data(b: byte) | Command(c: byte) | Negotiation(verb: byte, opt: byte)
                   | Subnegotiation(payload: seq<byte>)

  predicate NoSE(d: seq<byte>) {
    forall i :: 0 <= i < |d| - 1 ==> !(d[i] == IAC && d[i + 1] == SE)
  }

  predicate ValidToken(t: Token) {
    match t
    case Data(_) => true
    case Command(c) => c != IAC && c != SB && !IsNegotiation(c)
    case Negotiation(verb, _) => IsNegotiation(verb)
    case Subnegotiation(payload) => NoSE(payload)
  }

  function EncodeToken(t: Token): (d: seq<byte>)
    ensures d != []
  {
    match t
    case Data(b) => if b == IAC then [IAC, IAC] else [b]
    case Command(c) => [IAC, c]
    case Negotiation(verb, opt) => [IAC, verb, opt]
    case Subnegotiation(payload) => [IAC, SB] + payload + [IAC, SE]
  }

  function Encode(tokens: seq<Token>): seq<byte> {
    if tokens == [] then [] else EncodeToken(tokens[0]) + Encode(tokens[1..])
  }

  function DataOf(tokens: seq<Token>): seq<byte> {
    if tokens == [] then [] else (if tokens[0].Data? then [tokens[0].b] else []) + DataOf(tokens[1..])
  }

  /** The refusals a peer's tokens deserve. */
  function RefusalsOf(tokens: seq<Token>): seq<byte> {
    if tokens == [] then []
    else
      (match tokens[0]
       case Negotiation(verb, opt) => if verb == DO then [IAC, WONT, opt]
                                    else if verb == WILL then [IAC, DONT, opt] else []
       case _ => [])
      + RefusalsOf(tokens[1..])
  }

  /** The scan stops at the IAC SE that closes the payload, even behind a payload ending in IAC. */
  lemma {:induction false} ScanFindsEnd(payload: seq<byte>, rest: seq<byte>)
    requires NoSE(payload)
    ensures AfterSE(payload + [IAC, SE] + rest) == |payload| + 2
  {
    var d := payload + [IAC, SE] + rest;
    if payload != [] {
      assert d[1..] == payload[1..] + [IAC, SE] + rest;
      ScanFindsEnd(payload[1..], rest);
      assert !(d[0] == IAC && d[1] == SE);
    }
  }

  lemma OneToken(t: Token, rest: seq<byte>)
    requires ValidToken(t)
    ensures var d := EncodeToken(t) + rest;
            && TokenLength(d) == |EncodeToken(t)|
            && TokenData(d) == DataOf([t]) && TokenReply(d) == RefusalsOf([t])
  {
    var d := EncodeToken(t) + rest;
    if t.Subnegotiation? {
      ScanFindsEnd(t.payload, rest);
      assert d[2..] == t.payload + [IAC, SE] + rest;
    }
  }

  lemma UnfoldData(tokens: seq<Token>)
    requires tokens != []
    ensures DataOf(tokens) == DataOf([tokens[0]]) + DataOf(tokens[1..])
  {
    assert DataOf([tokens[0]]) == if tokens[0].Data? then [tokens[0].b] else [];
  }

  lemma UnfoldRefusals(tokens: seq<Token>)
    requires tokens != []
    ensures RefusalsOf(tokens) == RefusalsOf([tokens[0]]) + RefusalsOf(tokens[1..])
  {
    assert [tokens[0]][1..] == [];
  }

  lemma FirstToken(t: Token, tail: seq<byte>)
    requires ValidToken(t)
    ensures Filter(EncodeToken(t) + tail) == DataOf([t]) + Filter(tail)
    ensures Replies(EncodeToken(t) + tail) == RefusalsOf([t]) + Replies(tail)
  {
    OneToken(t, tail);
    var d := EncodeToken(t) + tail;
    assert d[TokenLength(d)..] == tail;
  }

  /** Round trip at every token boundary: filtering an encoding followed by anything gives the
      encoded data followed by what filtering the rest gives, and likewise for the refusals. */
  lemma {:induction false} RoundTrip(tokens: seq<Token>, rest: seq<byte>)
    requires forall t :: t in tokens ==> ValidToken(t)
    ensures Filter(Encode(tokens) + rest) == DataOf(tokens) + Filter(rest)
    ensures Replies(Encode(tokens) + rest) == RefusalsOf(tokens) + Replies(rest)
  {
    if tokens == [] {
      assert Encode(tokens) + rest == rest;
    } else {
      RoundTrip(tokens[1..], rest);
      UnfoldData(tokens);
      UnfoldRefusals(tokens);
      Prepend(tokens[0], Encode(tokens[1..]), DataOf(tokens[1..]), RefusalsOf(tokens[1..]), rest);
    }
  }

  /** Gluing two steps of any `f` that passes over `enc` and then over `bytes`. */
  lemma Glue(f: seq<byte> -> seq<byte>, enc: seq<byte>, bytes: seq<byte>, one: seq<byte>, more: seq<byte>,
             rest: seq<byte>)
    requires f(enc + (bytes + rest)) == one + f(bytes + rest) && f(bytes + rest) == more + f(rest)
    ensures f(enc + bytes + rest) == one + more + f(rest)
  {
    assert enc + bytes + rest == enc + (bytes + rest);
  }

  /** One more token in front of bytes that filter to `data` and are answered by `refusals`. */
  lemma Prepend(t: Token, bytes: seq<byte>, data: seq<byte>, refusals: seq<byte>, rest: seq<byte>)
    requires ValidToken(t)
    requires Filter(bytes + rest) == data + Filter(rest) && Replies(bytes + rest) == refusals + Replies(rest)
    ensures Filter(EncodeToken(t) + bytes + rest) == DataOf([t]) + data + Filter(rest)
    ensures Replies(EncodeToken(t) + bytes + rest) == RefusalsOf([t]) + refusals + Replies(rest)
  {
    FirstToken(t, bytes + rest);
    Glue(Filter, EncodeToken(t), bytes, DataOf([t]), data, rest);
    Glue(Replies, EncodeToken(t), bytes, RefusalsOf([t]), refusals, rest);
  }

  /** Filtering a whole encoding yields exactly the data. */
  lemma FilterInvertsEncode(tokens: seq<Token>)
    requires forall t :: t in tokens ==> ValidToken(t)
    ensures Filter(Encode(tokens)) == DataOf(tokens) && Replies(Encode(tokens)) == RefusalsOf(tokens)
  {
    RoundTrip(tokens, []);
    assert Encode(tokens) + [] == Encode(tokens);
  }

  // ---- Refusals never loop ----

  /** The refusals for any input, seen as tokens. */
  function RefusalTokens(d: seq<byte>): (ts: seq<Token>)
    ensures forall t :: t in ts ==> t.Negotiation? && (t.verb == WONT || t.verb == DONT)
    decreases |d|
  {
    if d == [] then []
    else
      (if d[0] == IAC && |d| > 2 && d[1] == DO then [Negotiation(WONT, d[2])]
       else if d[0] == IAC && |d| > 2 && d[1] == WILL then [Negotiation(DONT, d[2])]
       else []) + RefusalTokens(d[TokenLength(d)..])
  }

  lemma {:induction false} RepliesAreRefusals(d: seq<byte>)
    ensures Replies(d) == Encode(RefusalTokens(d))
    decreases |d|
  {
    if d != [] {
      RepliesAreRefusals(d[TokenLength(d)..]);
      var rest := RefusalTokens(d[TokenLength(d)..]);
      var ts := RefusalTokens(d);
      if TokenReply(d) != [] {
        assert ts[1..] == rest;
      } else {
        assert ts == rest;
      }
    }
  }

  lemma {:induction false} RefusalsAreSilent(tokens: seq<Token>)
    requires forall t :: t in tokens ==> t.Negotiation? && (t.verb == WONT || t.verb == DONT)
    ensures DataOf(tokens) == [] && RefusalsOf(tokens) == []
  {
    if tokens != [] {
      RefusalsAreSilent(tokens[1..]);
      assert DataOf(tokens) == [] + DataOf(tokens[1..]) && RefusalsOf(tokens) == [] + RefusalsOf(tokens[1..]);
    }
  }

  /** Whatever the bridge receives, a peer that filters the bridge's refusals sees no data and has
      nothing to answer (RFC 854, "GENERAL CONSIDERATIONS": no negotiation loop). */
  lemma RefusalsEndTheExchange(d: seq<byte>)
    ensures Filter(Replies(d)) == [] && Replies(Replies(d)) == []
  {
    RepliesAreRefusals(d);
    RefusalsAreSilent(RefusalTokens(d));
    FilterInvertsEncode(RefusalTokens(d));
  }

  // ---- Chunks ----

  /** The subnegotiation payload is closed inside `d`. */
  predicate Closed(d: seq<byte>) {
    if |d| < 2 then false
    else (d[0] == IAC && d[1] == SE) || Closed(d[1..])
  }

  /** The first token does not run into the end of the data. */
  predicate TokenComplete(d: seq<byte>)
    requires d != []
  {
    d[0] != IAC || (|d| > 1 && (IsNegotiation(d[1]) ==> |d| > 2) && (d[1] == SB ==> Closed(d[2..])))
  }

  /** No token is cut off at the end. */
  predicate Complete(d: seq<byte>) {
    d == [] || (TokenComplete(d) && Complete(d[TokenLength(d)..]))
  }

  lemma {:induction false} ScanOfPrefix(a: seq<byte>, b: seq<byte>)
    ensures Closed(a) ==> AfterSE(a + b) == AfterSE(a)
    ensures !Closed(a) ==> AfterSE(a) == |a|
    ensures !Closed(a) && (a == [] || a[|a| - 1] != IAC || b == [] || b[0] != SE) ==> AfterSE(a + b) == |a| + AfterSE(b)
  {
    if a == [] {
      assert a + b == b;
    } else {
      assert (a + b)[1..] == a[1..] + b;
      ScanOfPrefix(a[1..], b);
    }
  }

  lemma CompleteTokenIgnoresRest(a: seq<byte>, b: seq<byte>)
    requires a != [] && TokenComplete(a)
    ensures TokenLength(a + b) == TokenLength(a) && TokenData(a + b) == TokenData(a)
  {
    if a[0] == IAC && a[1] == SB {
      assert (a + b)[2..] == a[2..] + b;
      ScanOfPrefix(a[2..], b);
    }
  }

  /** In front of any `rest` the bytes `d` give this data and these refusals. */
  ghost predicate Gives(d: seq<byte>, rest: seq<byte>, data: seq<byte>, refusals: seq<byte>) {
    Filter(d + rest) == data + Filter(rest) && Replies(d + rest) == refusals + Replies(rest)
  }

  lemma TokenGives(t: Token, rest: seq<byte>)
    requires ValidToken(t)
    ensures Gives(EncodeToken(t), rest, DataOf([t]), RefusalsOf([t]))
  {
    FirstToken(t, rest);
  }

  lemma NegotiationGives(verb: byte, opt: byte, rest: seq<byte>)
    requires 251 <= verb <= 254
    ensures Gives([255, verb, opt], rest, [],
                  if verb == 253 then [255, 252, opt] else if verb == 251 then [255, 254, opt] else [])
  {
    TokenGives(Negotiation(verb, opt), rest);
    assert DataOf([Negotiation(verb, opt)]) == [];
  }

  lemma SilentTokenGives(t: Token, rest: seq<byte>)
    requires ValidToken(t) && (t.Command? || t.Subnegotiation?)
    ensures Gives(EncodeToken(t), rest, [], [])
  {
    TokenGives(t, rest);
    assert DataOf([t]) == [] && RefusalsOf([t]) == [];
  }

  lemma DataGives(b: byte, rest: seq<byte>)
    ensures Gives(if b == 255 then [255, 255] else [b], rest, [b], [])
  {
    TokenGives(Data(b), rest);
    assert DataOf([Data(b)]) == [b] && RefusalsOf([Data(b)]) == [];
  }

  /** The filter byte for byte.  Plain bytes pass, and a doubled 255 is one; DO (253) is refused with WONT (252),
      WILL (251) with DONT (254), and these two draw nothing; the other commands are dropped, and so is a
      subnegotiation, from 255 250 to the next 255 240. */
  lemma ByteForByte(b: byte, payload: seq<byte>, rest: seq<byte>)
    requires forall i :: 0 <= i < |payload| - 1 ==> !(payload[i] == 255 && payload[i + 1] == 240)
    ensures if b == 255 then Gives([255, 255], rest, [255], []) else Gives([b], rest, [b], [])
    ensures Gives([255, 253, b], rest, [], [255, 252, b]) && Gives([255, 251, b], rest, [], [255, 254, b])
    ensures Gives([255, 252, b], rest, [], []) && Gives([255, 254, b], rest, [], [])
    ensures b < 250 ==> Gives([255, b], rest, [], [])
    ensures Gives([255, 250] + payload + [255, 240], rest, [], [])
  {
    DataGives(b, rest);
    NegotiationGives(253, b, rest);
    NegotiationGives(251, b, rest);
    NegotiationGives(252, b, rest);
    NegotiationGives(254, b, rest);
    if b < 250 { SilentTokenGives(Command(b), rest); }
    SilentTokenGives(Subnegotiation(payload), rest);
  }

  lemma {:induction false} NoEndIsAll(payload: seq<byte>)
    requires NoSE(payload)
    ensures AfterSE(payload) == |payload|
  {
    if payload != [] { NoEndIsAll(payload[1..]); }
  }

  /** What is cut off at the end: an open subnegotiation swallows everything, a lone 255 is data, and a
      negotiation without its option is nothing. */
  lemma CutOffAtEnd(d: seq<byte>)
    ensures |d| >= 2 && d[0] == 255 && d[1] == 250 && NoSE(d[2..]) ==> Filter(d) == [] && Replies(d) == []
    ensures d == [255] ==> Filter(d) == [255] && Replies(d) == []
    ensures |d| == 2 && d[0] == 255 && 251 <= d[1] <= 254 ==> Filter(d) == [] && Replies(d) == []
  {
    if |d| >= 2 && d[0] == 255 && d[1] == 250 && NoSE(d[2..]) { NoEndIsAll(d[2..]); }
    if d != [] && TokenLength(d) == |d| { assert d[TokenLength(d)..] == []; }
  }

  /** An `f` that gives `one` for the first `n` bytes distributes over `a + b` if it does behind them. */
  lemma Behind(f: seq<byte> -> seq<byte>, one: seq<byte>, a: seq<byte>, b: seq<byte>, n: nat)
    requires n <= |a| && f(a) == one + f(a[n..]) && f(a + b) == one + f((a + b)[n..])
    requires f(a[n..] + b) == f(a[n..]) + f(b)
    ensures f(a + b) == f(a) + f(b)
  {
    assert (a + b)[n..] == a[n..] + b;
    Associative(one, f(a[n..]), f(b));
  }

  lemma {:induction false} Distributes(a: seq<byte>, b: seq<byte>)
    requires Complete(a)
    ensures Filter(a + b) == Filter(a) + Filter(b)
    decreases |a|
  {
    if a == [] {
      assert a + b == b;
    } else {
      var n := TokenLength(a);
      CompleteTokenIgnoresRest(a, b);
      Distributes(a[n..], b);
      Behind(Filter, TokenData(a), a, b, n);
    }
  }

  /** A continuation on which filtering a cut-off chunk by itself goes wrong. */
  function Continuation(a: seq<byte>): seq<byte>
    requires !Complete(a)
    decreases |a|
  {
    if TokenComplete(a) then Continuation(a[TokenLength(a)..])
    else if |a| == 1 then [IAC]
    else [0x41]
  }

  lemma {:induction false} CutChunkGoesWrong(a: seq<byte>)
    requires !Complete(a)
    ensures var b := Continuation(a); |Filter(a + b)| < |Filter(a)| + |Filter(b)|
    decreases |a|
  {
    var b := Continuation(a);
    if TokenComplete(a) {
      var n := TokenLength(a);
      CompleteTokenIgnoresRest(a, b);
      assert (a + b)[n..] == a[n..] + b;
      CutChunkGoesWrong(a[n..]);
    } else if |a| == 1 {
      assert (a + b)[2..] == [] && a[1..] == [] && b[1..] == [];
    } else {
      assert b[1..] == [];
      if a[1] == SB {
        assert (a + b)[2..] == a[2..] + b;
        ScanOfPrefix(a[2..], b);
        assert AfterSE(b) == 1 + AfterSE(b[1..]);
        assert a[TokenLength(a)..] == [] && (a + b)[TokenLength(a + b)..] == [];
      } else {
        assert |a| == 2 && a[2..] == [] && (a + b)[3..] == [];
      }
    }
  }

  /** The filters see one recv() at a time and keep no state.  Splitting a stream after `a` is
      harmless for every continuation exactly when `a` ends between two tokens. */
  lemma ChunkSafeIffComplete(a: seq<byte>)
    ensures (forall b :: Filter(a + b) == Filter(a) + Filter(b)) <==> Complete(a)
  {
    if Complete(a) {
      forall b ensures Filter(a + b) == Filter(a) + Filter(b) { Distributes(a, b); }
    } else {
      CutChunkGoesWrong(a);
      assert Filter(a + Continuation(a)) != Filter(a) + Filter(Continuation(a));
    }
  }

  // ---- The same for the refusals ----

  lemma CompleteTokenRepliesAlone(a: seq<byte>, b: seq<byte>)
    requires a != [] && TokenComplete(a)
    ensures TokenReply(a + b) == TokenReply(a)
  {
  }

  lemma {:induction false} RepliesDistribute(a: seq<byte>, b: seq<byte>)
    requires Complete(a)
    ensures Replies(a + b) == Replies(a) + Replies(b)
    decreases |a|
  {
    if a == [] {
      assert a + b == b;
    } else {
      var n := TokenLength(a);
      CompleteTokenIgnoresRest(a, b);
      CompleteTokenRepliesAlone(a, b);
      RepliesDistribute(a[n..], b);
      Behind(Replies, TokenReply(a), a, b, n);
    }
  }

  /** A continuation on which the refusals for a cut-off chunk by itself go wrong. */
  function UnansweredContinuation(a: seq<byte>): seq<byte>
    requires !Complete(a)
    decreases |a|
  {
    if TokenComplete(a) then UnansweredContinuation(a[TokenLength(a)..])
    else if |a| == 1 then [DO, 0]
    else [IAC, DO, 0x41]
  }

  lemma RepliesToThree(d: seq<byte>)
    requires |d| == 3
    ensures d[0] == IAC && IsNegotiation(d[1]) ==> Replies(d) == TokenReply(d)
    ensures d[0] != IAC && d[1] != IAC ==> Replies(d) == []
  {
    assert d[3..] == [] && d[1..][1..] == d[2..] && d[2..][1..] == [];
  }

  lemma CutVerbGoesWrong(a: seq<byte>, b: seq<byte>)
    requires |a| == 2 && a[0] == IAC && IsNegotiation(a[1]) && b == [IAC, DO, 0x41]
    ensures Replies(a + b) != Replies(a) + Replies(b)
  {
    var c := a + b;
    assert a[2..] == [] && c[3..] == b[1..] && b[1..][1..] == b[2..] && b[2..][1..] == [];
    RepliesToThree(b);
    assert Replies(b[2..]) == [] && Replies(b[1..]) == [] && Replies(a) == [];
    assert Replies(c) == TokenReply(c) + Replies(c[3..]) == TokenReply(c);
    assert (Replies(a) + Replies(b))[2] == 0x41 && (TokenReply(c) == [] || TokenReply(c)[2] == IAC);
  }

  lemma LoneSubnegotiationIsSilent(d: seq<byte>)
    requires |d| >= 2 && d[0] == IAC && d[1] == SB && AfterSE(d[2..]) == |d| - 2
    ensures Replies(d) == []
  {
    assert d[TokenLength(d)..] == [];
  }

  lemma CutPayloadGoesWrong(a: seq<byte>)
    requires |a| >= 2 && a[0] == IAC && a[1] == SB && !Closed(a[2..])
    ensures Replies(a + [IAC, DO, 0x41]) != Replies(a) + Replies([IAC, DO, 0x41])
  {
    var b := [IAC, DO, 0x41];
    ThreeWithoutEnd(b);
    ScanOfPrefix(a[2..], b);
    assert (a + b)[2..] == a[2..] + b;
    LoneSubnegotiationIsSilent(a);
    LoneSubnegotiationIsSilent(a + b);
    RepliesToThree(b);
  }

  lemma ThreeWithoutEnd(d: seq<byte>)
    requires |d| == 3 && d[1] != SE && d[2] != SE
    ensures AfterSE(d) == 3
  {
    assert AfterSE(d[2..][1..]) == 0 && AfterSE(d[1..][1..]) == AfterSE(d[2..]);
  }

  lemma CutIacGoesWrong()
    ensures Replies([IAC] + [DO, 0]) != Replies([IAC]) + Replies([DO, 0])
  {
    assert [IAC][1..] == [] && [DO, 0][1..] == [0] && [0][1..] == [];
    assert [IAC] + [DO, 0] == [IAC, DO, 0];
    RepliesToThree([IAC, DO, 0]);
  }

  lemma {:induction false} CutChunkLosesReplies(a: seq<byte>)
    requires !Complete(a)
    ensures var b := UnansweredContinuation(a); Replies(a + b) != Replies(a) + Replies(b)
    decreases |a|
  {
    var b := UnansweredContinuation(a);
    if TokenComplete(a) {
      var n := TokenLength(a);
      CompleteTokenIgnoresRest(a, b);
      CompleteTokenRepliesAlone(a, b);
      assert (a + b)[n..] == a[n..] + b;
      CutChunkLosesReplies(a[n..]);
      SameFront(TokenReply(a), Replies(a[n..] + b), Replies(a[n..]) + Replies(b));
      Associative(TokenReply(a), Replies(a[n..]), Replies(b));
    } else if |a| == 1 {
      assert a == [IAC];
      CutIacGoesWrong();
    } else if a[1] == SB {
      CutPayloadGoesWrong(a);
    } else {
      CutVerbGoesWrong(a, b);
    }
  }

  lemma SameFront(front: seq<byte>, x: seq<byte>, y: seq<byte>)
    ensures front + x == front + y ==> x == y
  {
    if front + x == front + y {
      assert x == (front + x)[|front|..] && y == (front + y)[|front|..];
    }
  }

  /** The refusals, too: answering two chunks one by one answers the whole stream, for every
      continuation, exactly when the cut is between two tokens. */
  lemma RepliesSafeIffComplete(a: seq<byte>)
    ensures (forall b :: Replies(a + b) == Replies(a) + Replies(b)) <==> Complete(a)
  {
    if Complete(a) {
      forall b ensures Replies(a + b) == Replies(a) + Replies(b) { RepliesDistribute(a, b); }
    } else {
      CutChunkLosesReplies(a);
      assert Replies(a + UnansweredContinuation(a)) != Replies(a) + Replies(UnansweredContinuation(a));
    }
  }

  // ---- Complete streams are exactly the encodings ----

  function ParseToken(d: seq<byte>): Token
    requires d != [] && TokenComplete(d)
  {
    if d[0] != IAC then Data(d[0])
    else if d[1] == IAC then Data(IAC)
    else if IsNegotiation(d[1]) then Negotiation(d[1], d[2])
    else if d[1] == SB then Subnegotiation(Payload(d[2..]))
    else Command(d[1])
  }

  /** The payload in front of the closing IAC SE. */
  function Payload(d: seq<byte>): seq<byte>
    requires Closed(d)
  {
    if d[0] == IAC && d[1] == SE then [] else [d[0]] + Payload(d[1..])
  }

  function Parse(d: seq<byte>): seq<Token>
    requires Complete(d)
    decreases |d|
  {
    if d == [] then [] else [ParseToken(d)] + Parse(d[TokenLength(d)..])
  }

  lemma {:induction false} PayloadIsClosed(d: seq<byte>)
    requires Closed(d)
    ensures NoSE(Payload(d)) && d[..AfterSE(d)] == Payload(d) + [IAC, SE]
    ensures Payload(d) != [] ==> Payload(d)[0] == d[0]
  {
    if !(d[0] == IAC && d[1] == SE) {
      PayloadIsClosed(d[1..]);
      assert d[..AfterSE(d)] == [d[0]] + d[1..][..AfterSE(d[1..])];
    }
  }

  lemma ParsedTokenEncodes(d: seq<byte>)
    requires d != [] && TokenComplete(d)
    ensures ValidToken(ParseToken(d)) && EncodeToken(ParseToken(d)) == d[..TokenLength(d)]
  {
    if d[0] == IAC && d[1] == SB {
      PayloadIsClosed(d[2..]);
      assert d[..TokenLength(d)] == [IAC, SB] + d[2..][..AfterSE(d[2..])];
    }
  }

  /** A token and the tokens behind it encode to the two parts of `d`. */
  lemma Join(d: seq<byte>, n: nat, t: Token, tail: seq<Token>)
    requires n <= |d| && EncodeToken(t) == d[..n] && Encode(tail) == d[n..]
    ensures Encode([t] + tail) == d
  {
    assert ([t] + tail)[1..] == tail;
    assert d == d[..n] + d[n..];
  }

  /** Every complete stream is the encoding of valid tokens ... */
  lemma {:induction false} ParseIsInverted(d: seq<byte>)
    requires Complete(d)
    ensures Encode(Parse(d)) == d && forall t :: t in Parse(d) ==> ValidToken(t)
    decreases |d|
  {
    if d != [] {
      var n := TokenLength(d);
      ParsedTokenEncodes(d);
      ParseIsInverted(d[n..]);
      Join(d, n, ParseToken(d), Parse(d[n..]));
    }
  }

  lemma {:induction false} ClosedPayload(payload: seq<byte>, rest: seq<byte>)
    ensures Closed(payload + [IAC, SE] + rest)
  {
    if payload != [] {
      ClosedPayload(payload[1..], rest);
      assert (payload + [IAC, SE] + rest)[1..] == payload[1..] + [IAC, SE] + rest;
    }
  }

  lemma EncodedTokenIsComplete(t: Token, rest: seq<byte>)
    requires ValidToken(t)
    ensures TokenComplete(EncodeToken(t) + rest)
  {
    if t.Subnegotiation? {
      ClosedPayload(t.payload, rest);
      assert (EncodeToken(t) + rest)[2..] == t.payload + [IAC, SE] + rest;
    }
  }

  /** ... and every encoding is complete. */
  lemma {:induction false} EncodingIsComplete(tokens: seq<Token>)
    requires forall t :: t in tokens ==> ValidToken(t)
    ensures Complete(Encode(tokens))
  {
    if tokens != [] {
      var rest := Encode(tokens[1..]);
      EncodingIsComplete(tokens[1..]);
      EncodedTokenIsComplete(tokens[0], rest);
      OneToken(tokens[0], rest);
      assert Encode(tokens)[TokenLength(Encode(tokens))..] == rest;
    }
  }
}
