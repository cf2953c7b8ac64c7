/** The flight recorder: a bounded buffer of frames, each chained to the one
    before it by an FNV-style hash on 64-bit words. Strings are byte strings. */
module BlackBox {
  import opened Common

  type Bytes = seq<bv8>

  const OFFSET_BASIS: bv64 := 0xcbf2_9ce4_8422_2325

  datatype Input = Input(key: Bytes, op: Bytes, ok: bool, fence: bv64)

  datatype Frame = Frame(index: nat, body: Input, chain: bv64)

  // ----------------------------------------------------------------------
  // The hash
  // ----------------------------------------------------------------------

  // Wrapping multiplication by the FNV prime.
  function TimesPrime(x: bv64): bv64 {
    x * 0x100_0000_01b3
  }

  function Mix(h: bv64, byte: bv8): bv64 {
    TimesPrime(h ^ (byte as bv64))
  }

  function MixAll(h: bv64, bytes: Bytes): bv64 {
    if bytes == [] then h else Mix(MixAll(h, bytes[..|bytes| - 1]), bytes[|bytes| - 1])
  }

  // Most significant byte first.
  function FenceBytes(f: bv64): (r: Bytes)
    ensures |r| == 8
  {
    [((f >> 56) & 0xff) as bv8, ((f >> 48) & 0xff) as bv8, ((f >> 40) & 0xff) as bv8, ((f >> 32) & 0xff) as bv8,
     ((f >> 24) & 0xff) as bv8, ((f >> 16) & 0xff) as bv8, ((f >> 8) & 0xff) as bv8, (f & 0xff) as bv8]
  }

  function OkByte(ok: bool): bv8 {
    if ok then 1 else 0
  }

  // Everything a frame commits to, in hashing order.
  function Body(x: Input): Bytes {
    Pack(x.key, x.op, OkByte(x.ok), FenceBytes(x.fence))
  }

  function Pack(key: Bytes, op: Bytes, ok: bv8, fence: Bytes): Bytes {
    key + [0] + op + [0] + [ok] + fence
  }

  function ChainOf(prev: bv64, x: Input): bv64 {
    MixAll(prev ^ OFFSET_BASIS, Body(x))
  }

  lemma {:induction false} MixAllConcat(h: bv64, xs: Bytes, ys: Bytes)
    ensures MixAll(h, xs + ys) == MixAll(MixAll(h, xs), ys)
  {
    if ys == [] {
      assert xs + ys == xs;
    } else {
      var n := |ys| - 1;
      MixAllConcat(h, xs, ys[..n]);
      assert (xs + ys)[..|xs + ys| - 1] == xs + ys[..n];
    }
  }

  method MixBytes(h: bv64, bytes: Bytes) returns (r: bv64)
    ensures r == MixAll(h, bytes)
  {
    r := h;
    for i := 0 to |bytes|
      invariant r == MixAll(h, bytes[..i])
    {
      assert bytes[..i + 1][..i] == bytes[..i];
      r := Mix(r, bytes[i]);
    }
    assert bytes[..|bytes|] == bytes;
  }

  // chain_of
  method ComputeChain(prev: bv64, x: Input) returns (h: bv64)
    ensures h == ChainOf(prev, x)
  {
    var start := prev ^ OFFSET_BASIS;
    h := MixBytes(start, x.key);
    MixAllConcat(start, x.key, [0]);
    MixAllOne(h, 0);
    h := Mix(h, 0);
    var p := x.key + [0];
    MixAllConcat(start, p, x.op);
    h := MixBytes(h, x.op);
    p := p + x.op;
    MixAllConcat(start, p, [0]);
    MixAllOne(h, 0);
    h := Mix(h, 0);
    p := p + [0];
    MixAllConcat(start, p, [OkByte(x.ok)]);
    MixAllOne(h, OkByte(x.ok));
    h := Mix(h, OkByte(x.ok));
    p := p + [OkByte(x.ok)];
    MixAllConcat(start, p, FenceBytes(x.fence));
    h := MixBytes(h, FenceBytes(x.fence));
  }

  lemma MixAllOne(h: bv64, b: bv8)
    ensures MixAll(h, [b]) == Mix(h, b)
  {
    assert [b][..0] == [];
  }

  // ----------------------------------------------------------------------
  // Mixing loses nothing
  // ----------------------------------------------------------------------

  // The prime is odd: multiplication by it is undone by its inverse modulo 2^64.
  function DividedByPrime(x: bv64): bv64 {
    x * 0xce96_5057_aff6_957b
  }

  lemma InverseUndoes(x: bv64)
    ensures DividedByPrime(x * 0x100_0000_01b3) == x
  {
  }

  lemma TimesPrimeSeparates(x: bv64, y: bv64)
    requires x != y
    ensures TimesPrime(x) != TimesPrime(y)
  {
    InverseUndoes(x);
    InverseUndoes(y);
    assert DividedByPrime(TimesPrime(x)) == x && DividedByPrime(TimesPrime(y)) == y;
  }

  lemma XorSeparatesWords(g: bv64, h: bv64, b: bv64)
    requires g != h
    ensures g ^ b != h ^ b
  {
    assert (g ^ b) ^ b == g && (h ^ b) ^ b == h;
  }

  lemma MixSeparatesStates(g: bv64, h: bv64, b: bv8)
    requires g != h
    ensures Mix(g, b) != Mix(h, b)
  {
    XorSeparatesWords(g, h, b as bv64);
    TimesPrimeSeparates(g ^ (b as bv64), h ^ (b as bv64));
  }

  lemma XorSeparatesBytes(h: bv64, a: bv8, b: bv8)
    requires a != b
    ensures h ^ (a as bv64) != h ^ (b as bv64)
  {
  }

  lemma MixSeparatesBytes(h: bv64, a: bv8, b: bv8)
    requires a != b
    ensures Mix(h, a) != Mix(h, b)
  {
    XorSeparatesBytes(h, a, b);
    TimesPrimeSeparates(h ^ (a as bv64), h ^ (b as bv64));
  }

  lemma {:induction false} MixAllSeparatesStarts(g: bv64, h: bv64, bytes: Bytes)
    requires g != h
    ensures MixAll(g, bytes) != MixAll(h, bytes)
  {
    if bytes != [] {
      var n := |bytes| - 1;
      MixAllSeparatesStarts(g, h, bytes[..n]);
      var x, y, b := MixAll(g, bytes[..n]), MixAll(h, bytes[..n]), bytes[n];
      MixSeparatesStates(x, y, b);
    }
  }

  // Changing one byte of the text changes the hash.
  lemma MixAllSeparatesOneByte(h: bv64, bytes: Bytes, i: nat, b: bv8)
    requires i < |bytes| && b != bytes[i]
    ensures MixAll(h, bytes[i := b]) != MixAll(h, bytes)
  {
    var p, s := bytes[..i], bytes[i + 1..];
    assert bytes == p + [bytes[i]] + s && bytes[i := b] == p + [b] + s;
    var m := MixAll(h, p);
    MixAllConcat(h, p, [bytes[i]]);
    MixAllConcat(h, p, [b]);
    MixAllOne(m, bytes[i]);
    MixAllOne(m, b);
    MixSeparatesBytes(m, b, bytes[i]);
    MixAllConcat(h, p + [bytes[i]], s);
    MixAllConcat(h, p + [b], s);
    MixAllSeparatesStarts(Mix(m, b), Mix(m, bytes[i]), s);
  }

  lemma ChainSeparatesPredecessors(p: bv64, q: bv64, x: Input)
    requires p != q
    ensures ChainOf(p, x) != ChainOf(q, x)
  {
    XorSeparatesWords(p, q, OFFSET_BASIS);
    MixAllSeparatesStarts(p ^ OFFSET_BASIS, q ^ OFFSET_BASIS, Body(x));
  }

  // ----------------------------------------------------------------------
  // What is hashed
  // ----------------------------------------------------------------------

  // The published 64-bit FNV-1a value of the text "a".
  lemma KnownHash()
    ensures MixAll(0xcbf2_9ce4_8422_2325, [0x61]) == 0xaf63_dc4c_8601_ec8c
  {
    MixAllOne(0xcbf2_9ce4_8422_2325, 0x61);
  }

  // The bytes of a fence, the most significant first, make up the fence.
  lemma FenceFromBytes(f: bv64)
    ensures var b := FenceBytes(f);
            f == ((b[0] as bv64) << 56) | ((b[1] as bv64) << 48) | ((b[2] as bv64) << 40) | ((b[3] as bv64) << 32)
               | ((b[4] as bv64) << 24) | ((b[5] as bv64) << 16) | ((b[6] as bv64) << 8) | (b[7] as bv64)
  {
    ShiftsJoin(f);
  }

  lemma ShiftsJoin(f: bv64)
    ensures f == ((((f >> 56) & 0xff) as bv8 as bv64) << 56) | ((((f >> 48) & 0xff) as bv8 as bv64) << 48)
               | ((((f >> 40) & 0xff) as bv8 as bv64) << 40) | ((((f >> 32) & 0xff) as bv8 as bv64) << 32)
               | ((((f >> 24) & 0xff) as bv8 as bv64) << 24) | ((((f >> 16) & 0xff) as bv8 as bv64) << 16)
               | ((((f >> 8) & 0xff) as bv8 as bv64) << 8) | ((f & 0xff) as bv8 as bv64)
  {
  }

  lemma FenceBytesSeparate(f: bv64, g: bv64)
    requires FenceBytes(f) == FenceBytes(g)
    ensures f == g
  {
    FenceFromBytes(f);
    FenceFromBytes(g);
  }

  ghost predicate ZeroFree(text: Bytes) {
    forall i :: 0 <= i < |text| ==> text[i] != 0
  }

  // A zero-terminated text is read back from what follows it.
  lemma {:induction false} TerminatorSeparates(a: Bytes, b: Bytes, x: Bytes, y: Bytes)
    requires ZeroFree(a) && ZeroFree(b) && a + [0] + x == b + [0] + y
    ensures a == b && x == y
  {
    if a == [] || b == [] {
      assert (a + [0] + x)[0] == (b + [0] + y)[0];
      assert a == [] && b == [];
      assert (a + [0] + x)[1..] == x && (b + [0] + y)[1..] == y;
    } else {
      assert (a + [0] + x)[0] == a[0] && (b + [0] + y)[0] == b[0];
      assert (a + [0] + x)[1..] == a[1..] + [0] + x && (b + [0] + y)[1..] == b[1..] + [0] + y;
      TerminatorSeparates(a[1..], b[1..], x, y);
      assert a == [a[0]] + a[1..] && b == [b[0]] + b[1..];
    }
  }

  // Two records whose key and operation hold no zero byte are hashed as the same text
  // only if they are the same record.
  lemma TextDeterminesRecord(x: Input, y: Input)
    requires ZeroFree(x.key) && ZeroFree(x.op) && ZeroFree(y.key) && ZeroFree(y.op)
    requires Body(x) == Body(y)
    ensures x == y
  {
    var u, v := [OkByte(x.ok)] + FenceBytes(x.fence), [OkByte(y.ok)] + FenceBytes(y.fence);
    PackIsTerminated(x.key, x.op, OkByte(x.ok), FenceBytes(x.fence));
    PackIsTerminated(y.key, y.op, OkByte(y.ok), FenceBytes(y.fence));
    TerminatorSeparates(x.key, y.key, x.op + [0] + u, y.op + [0] + v);
    TerminatorSeparates(x.op, y.op, u, v);
    OkAndFenceSeparate(OkByte(x.ok), FenceBytes(x.fence), OkByte(y.ok), FenceBytes(y.fence));
    FenceBytesSeparate(x.fence, y.fence);
  }

  lemma PackIsTerminated(key: Bytes, op: Bytes, ok: bv8, fence: Bytes)
    ensures Pack(key, op, ok, fence) == key + [0] + (op + [0] + ([ok] + fence))
  {
  }

  lemma OkAndFenceSeparate(a: bv8, f: Bytes, b: bv8, g: Bytes)
    requires [a] + f == [b] + g
    ensures a == b && f == g
  {
    assert ([a] + f)[0] == a && ([b] + g)[0] == b;
    assert ([a] + f)[1..] == f && ([b] + g)[1..] == g;
  }

  // A key may hold a zero byte; then another record may share its text, and its hash
  // after any predecessor.
  lemma ZeroByteIsAmbiguous(prev: bv64, ok: bool, fence: bv64)
    ensures ChainOf(prev, Input([0x61, 0], [], ok, fence)) == ChainOf(prev, Input([0x61], [0], ok, fence))
  {
    assert Body(Input([0x61, 0], [], ok, fence)) == Body(Input([0x61], [0], ok, fence));
  }

  // ----------------------------------------------------------------------
  // The tape, for any chaining function; the recorder uses ChainOf
  // ----------------------------------------------------------------------

  type Hash = (bv64, Input) -> bv64

  function LastChain(frames: seq<Frame>): bv64 {
    if frames == [] then 0 else frames[|frames| - 1].chain
  }

  function NextFrame(H: Hash, frames: seq<Frame>, x: Input): Frame {
    Frame(|frames|, x, H(LastChain(frames), x))
  }

  // Every frame ever recorded.
  function Tape(H: Hash, history: seq<Input>): seq<Frame> {
    if history == [] then []
    else
      var n := |history| - 1;
      var before := Tape(H, history[..n]);
      before + [NextFrame(H, before, history[n])]
  }

  // What the buffer keeps: the newest cap frames. A capacity of zero never
  // evicts, because the length is compared before the push.
  function Kept(frames: seq<Frame>, cap: nat): seq<Frame> {
    frames[Evicted(|frames|, cap)..]
  }

  function Evicted(n: nat, cap: nat): (d: nat)
    ensures d <= n
  {
    if cap == 0 || n <= cap then 0 else n - cap
  }

  function Pushed(buf: seq<Frame>, f: Frame, cap: nat): seq<Frame> {
    (if |buf| == cap && |buf| > 0 then buf[1..] else buf) + [f]
  }

  // Evicting the oldest frame of a full buffer and pushing keeps the newest.
  lemma KeptGrows(frames: seq<Frame>, f: Frame, cap: nat)
    ensures var buf := Kept(frames, cap);
            Kept(frames + [f], cap) == Pushed(buf, f, cap)
  {
    var d := Evicted(|frames|, cap);
    assert (frames + [f])[d..] == frames[d..] + [f];
  }

  ghost predicate LinkedAt(H: Hash, buf: seq<Frame>, i: int)
    requires 0 < i < |buf|
  {
    H(buf[i - 1].chain, buf[i].body) == buf[i].chain
  }

  ghost predicate Linked(H: Hash, buf: seq<Frame>) {
    forall i :: 0 < i < |buf| ==> LinkedAt(H, buf, i)
  }

  // Frame i is the first that does not commit to its predecessor.
  ghost predicate BreaksAt(H: Hash, buf: seq<Frame>, i: int) {
    && 0 < i < |buf| && !LinkedAt(H, buf, i)
    && forall j :: 0 < j < i ==> LinkedAt(H, buf, j)
  }

  lemma TapeNext(H: Hash, history: seq<Input>, x: Input)
    ensures Tape(H, history + [x]) == Tape(H, history) + [NextFrame(H, Tape(H, history), x)]
  {
    assert (history + [x])[..|history|] == history;
  }

  lemma {:induction false} TapeIsLinked(H: Hash, history: seq<Input>)
    ensures |Tape(H, history)| == |history| && Linked(H, Tape(H, history))
    ensures forall i :: 0 <= i < |history| ==> Tape(H, history)[i].index == i && Tape(H, history)[i].body == history[i]
  {
    if history != [] {
      var n := |history| - 1;
      TapeIsLinked(H, history[..n]);
      var before, tape := Tape(H, history[..n]), Tape(H, history);
      assert before == tape[..n];
      forall i | 0 < i < |tape| ensures LinkedAt(H, tape, i) {
        if i < n {
          assert LinkedAt(H, before, i);
        }
      }
    }
  }

  lemma SuffixIsLinked(H: Hash, tape: seq<Frame>, d: nat)
    requires Linked(H, tape) && d <= |tape|
    ensures Linked(H, tape[d..])
  {
    forall i | 0 < i < |tape| - d ensures LinkedAt(H, tape[d..], i) {
      assert LinkedAt(H, tape, d + i);
    }
  }

  // What is kept is linked, consecutive, and at most cap frames when cap >= 1.
  lemma KeptIsLinked(H: Hash, history: seq<Input>, cap: nat)
    ensures var buf, d := Kept(Tape(H, history), cap), Evicted(|history|, cap);
            && Linked(H, buf)
            && |buf| == |history| - d == (if cap == 0 || |history| <= cap then |history| else cap)
            && forall i :: 0 <= i < |buf| ==> buf[i].index == d + i && buf[i].body == history[d + i]
  {
    TapeIsLinked(H, history);
    SuffixIsLinked(H, Tape(H, history), Evicted(|history|, cap));
  }

  // What one more call leaves in each of the recorder's fields.
  lemma RecorderNext(H: Hash, history: seq<Input>, x: Input, cap: nat, f: Frame)
    requires f == NextFrame(H, Tape(H, history), x)
    ensures var tape, next := Tape(H, history), Tape(H, history + [x]);
            && Kept(next, cap) == Pushed(Kept(tape, cap), f, cap)
            && LastChain(next) == f.chain && |next| == |tape| + 1
  {
    TapeNext(H, history, x);
    KeptGrows(Tape(H, history), f, cap);
  }

  class Recorder {
    var buf: seq<Frame>
    const cap: nat
    var lastChain: bv64
    var nextSeq: nat
    ghost var history: seq<Input>

    ghost predicate Valid()
      reads this
    {
      && buf == Kept(Tape(ChainOf, history), cap)
      && lastChain == LastChain(Tape(ChainOf, history))
      && nextSeq == |Tape(ChainOf, history)|
    }

    constructor (cap: nat)
      ensures Valid() && history == [] && this.cap == cap
    {
      this.cap := cap;
      buf, lastChain, nextSeq, history := [], 0, 0, [];
    }

    method Record(x: Input)
      requires Valid()
      modifies this
      ensures Valid() && history == old(history) + [x]
    {
      var n := nextSeq;
      nextSeq := nextSeq + 1;
      var chain := ComputeChain(lastChain, x);
      lastChain := chain;
      Push(Frame(n, x, chain));
      RecorderNext(ChainOf, history, x, cap, Frame(n, x, chain));
      history := history + [x];
    }

    // pop_front when the buffer is full, then push_back.
    method Push(f: Frame)
      modifies this`buf
      ensures buf == Pushed(old(buf), f, cap)
    {
      if |buf| == cap && |buf| > 0 {
        buf := buf[1..];
      }
      buf := buf + [f];
    }

    // dump: the frames kept, oldest first.
    method Dump() returns (frames: seq<Frame>)
      requires Valid()
      ensures frames == Kept(Tape(ChainOf, history), cap)
    {
      frames := buf;
    }

    // verify_chain on an untouched buffer never fails.
    method VerifyChain() returns (r: Result<(), nat>)
      requires Valid()
      ensures r == Ok(())
    {
      KeptIsLinked(ChainOf, history, cap);
      r := Verify(buf);
    }
  }

  // verify_chain on any buffer: it names the first frame that is not linked.
  method Verify(buf: seq<Frame>) returns (r: Result<(), nat>)
    ensures r == Ok(()) <==> Linked(ChainOf, buf)
    ensures forall i :: BreaksAt(ChainOf, buf, i) ==> r == Err(buf[i].index)
  {
    if |buf| == 0 {
      return Ok(());
    }
    var prev := buf[0].chain;
    for i := 1 to |buf|
      invariant prev == buf[i - 1].chain
      invariant forall j :: 0 < j < i ==> LinkedAt(ChainOf, buf, j)
    {
      var h := ComputeChain(prev, buf[i].body);
      if h != buf[i].chain {
        assert BreaksAt(ChainOf, buf, i);
        return Err(buf[i].index);
      }
      prev := buf[i].chain;
    }
    r := Ok(());
  }

  // ----------------------------------------------------------------------
  // Tamper evidence
  // ----------------------------------------------------------------------

  // One byte of one field is overwritten with another value.
  datatype Edit =
    | KeyByte(at: nat, byte: bv8)
    | OpByte(at: nat, byte: bv8)
    | FlipOk
    | FenceByte(at: nat, fence: bv64)

  predicate Applicable(x: Input, e: Edit) {
    match e
    case KeyByte(at, b) => at < |x.key| && x.key[at] != b
    case OpByte(at, b) => at < |x.op| && x.op[at] != b
    case FlipOk => true
    case FenceByte(at, f) => at < 8 && DifferOnlyAt(FenceBytes(x.fence), FenceBytes(f), at)
  }

  predicate DifferOnlyAt(a: Bytes, b: Bytes, at: nat) {
    at < |a| == |b| && a[at] != b[at] && b == a[at := b[at]]
  }

  function Edited(x: Input, e: Edit): Input
    requires Applicable(x, e)
  {
    match e
    case KeyByte(at, b) => x.(key := x.key[at := b])
    case OpByte(at, b) => x.(op := x.op[at := b])
    case FlipOk => x.(ok := !x.ok)
    case FenceByte(_, f) => x.(fence := f)
  }

  lemma DifferenceShows(h: bv64, p: Bytes, a: Bytes, b: Bytes, s: Bytes, at: nat)
    requires DifferOnlyAt(a, b, at)
    ensures MixAll(h, p + a + s) != MixAll(h, p + b + s)
  {
    assert p + b + s == (p + a + s)[|p| + at := b[at]];
    MixAllSeparatesOneByte(h, p + a + s, |p| + at, b[at]);
  }

  lemma KeyShows(h: bv64, a: Bytes, b: Bytes, op: Bytes, ok: bv8, fence: Bytes, at: nat)
    requires DifferOnlyAt(a, b, at)
    ensures MixAll(h, Pack(a, op, ok, fence)) != MixAll(h, Pack(b, op, ok, fence))
  {
    var s := [0] + op + [0] + [ok] + fence;
    DifferenceShows(h, [], a, b, s, at);
    assert forall k: Bytes :: Pack(k, op, ok, fence) == [] + k + s;
  }

  lemma OpShows(h: bv64, key: Bytes, a: Bytes, b: Bytes, ok: bv8, fence: Bytes, at: nat)
    requires DifferOnlyAt(a, b, at)
    ensures MixAll(h, Pack(key, a, ok, fence)) != MixAll(h, Pack(key, b, ok, fence))
  {
    var p, s := key + [0], [0] + [ok] + fence;
    DifferenceShows(h, p, a, b, s, at);
    assert forall k: Bytes :: Pack(key, k, ok, fence) == p + k + s;
  }

  lemma OkShows(h: bv64, key: Bytes, op: Bytes, a: bv8, b: bv8, fence: Bytes)
    requires a != b
    ensures MixAll(h, Pack(key, op, a, fence)) != MixAll(h, Pack(key, op, b, fence))
  {
    DifferenceShows(h, key + [0] + op + [0], [a], [b], fence, 0);
  }

  lemma FenceShows(h: bv64, key: Bytes, op: Bytes, ok: bv8, a: Bytes, b: Bytes, at: nat)
    requires DifferOnlyAt(a, b, at)
    ensures MixAll(h, Pack(key, op, ok, a)) != MixAll(h, Pack(key, op, ok, b))
  {
    var p := key + [0] + op + [0] + [ok];
    DifferenceShows(h, p, a, b, [], at);
    assert forall k: Bytes :: p + k + [] == p + k;
  }

  // Every edit changes exactly one byte of what the frame commits to.
  lemma EditChangesChain(prev: bv64, x: Input, e: Edit)
    requires Applicable(x, e)
    ensures ChainOf(prev, Edited(x, e)) != ChainOf(prev, x)
  {
    match e
    case KeyByte(i, b) => KeyShows(prev ^ OFFSET_BASIS, x.key, x.key[i := b], x.op, OkByte(x.ok), FenceBytes(x.fence), i);
    case OpByte(i, b) => OpShows(prev ^ OFFSET_BASIS, x.key, x.op, x.op[i := b], OkByte(x.ok), FenceBytes(x.fence), i);
    case FlipOk => OkShows(prev ^ OFFSET_BASIS, x.key, x.op, OkByte(x.ok), OkByte(!x.ok), FenceBytes(x.fence));
    case FenceByte(i, f) =>
      FenceShows(prev ^ OFFSET_BASIS, x.key, x.op, OkByte(x.ok), FenceBytes(x.fence), FenceBytes(f), i);
  }

  // Frame i is overwritten: only the links to it and from it are at risk.
  lemma OtherLinksStand(H: Hash, buf: seq<Frame>, i: nat, f: Frame)
    requires i < |buf| && Linked(H, buf)
    ensures var t := buf[i := f];
            && (forall j :: 0 < j < i ==> LinkedAt(H, t, j))
            && (f.chain == buf[i].chain ==> forall j :: i < j < |buf| ==> LinkedAt(H, t, j))
  {
    var t := buf[i := f];
    forall j | 0 < j < |buf| && (j < i || (j > i && f.chain == buf[i].chain)) ensures LinkedAt(H, t, j) {
      assert LinkedAt(H, buf, j);
    }
  }

  // The buffer after any run of Record calls, with frame i overwritten.
  function Tampered(history: seq<Input>, cap: nat, i: nat, f: Frame): seq<Frame> {
    var buf := Kept(Tape(ChainOf, history), cap);
    if i < |buf| then buf[i := f] else buf
  }

  // One byte of the body: caught at that frame, unless it is the oldest kept,
  // where nothing is checked.
  lemma BodyEditIsCaught(history: seq<Input>, cap: nat, i: nat, e: Edit)
    requires var buf := Kept(Tape(ChainOf, history), cap);
             i < |buf| && Applicable(buf[i].body, e)
    ensures var f := Kept(Tape(ChainOf, history), cap)[i];
            var t := Tampered(history, cap, i, f.(body := Edited(f.body, e)));
            if i == 0 then Linked(ChainOf, t) else BreaksAt(ChainOf, t, i)
  {
    KeptIsLinked(ChainOf, history, cap);
    var buf := Kept(Tape(ChainOf, history), cap);
    var f := buf[i].(body := Edited(buf[i].body, e));
    OtherLinksStand(ChainOf, buf, i, f);
    if i > 0 {
      assert LinkedAt(ChainOf, buf, i);
      EditChangesChain(buf[i - 1].chain, buf[i].body, e);
    }
  }

  // A chain value: caught at that frame, at the second when it is the oldest,
  // and not at all when it is the only one.
  lemma ChainEditIsCaught(history: seq<Input>, cap: nat, i: nat, c: bv64)
    requires var buf := Kept(Tape(ChainOf, history), cap);
             i < |buf| && c != buf[i].chain
    ensures var buf := Kept(Tape(ChainOf, history), cap);
            var t := Tampered(history, cap, i, buf[i].(chain := c));
            if |buf| == 1 then Linked(ChainOf, t) else BreaksAt(ChainOf, t, if i == 0 then 1 else i)
  {
    KeptIsLinked(ChainOf, history, cap);
    var buf := Kept(Tape(ChainOf, history), cap);
    var f := buf[i].(chain := c);
    OtherLinksStand(ChainOf, buf, i, f);
    if i > 0 {
      assert LinkedAt(ChainOf, buf, i);
    } else if |buf| > 1 {
      assert LinkedAt(ChainOf, buf, 1);
      ChainSeparatesPredecessors(c, buf[0].chain, buf[1].body);
    }
  }

  // Any frame f put at i, its own chain recomputed or not, passes unnoticed exactly
  // when it commits to the frame before it and the frame after it commits to it.
  lemma ForgeryPassesIff(history: seq<Input>, cap: nat, i: nat, f: Frame)
    requires i < |Kept(Tape(ChainOf, history), cap)|
    ensures var buf := Kept(Tape(ChainOf, history), cap);
            Linked(ChainOf, Tampered(history, cap, i, f)) <==>
            && (i > 0 ==> ChainOf(buf[i - 1].chain, f.body) == f.chain)
            && (i + 1 < |buf| ==> f.chain == buf[i].chain)
  {
    KeptIsLinked(ChainOf, history, cap);
    var buf := Kept(Tape(ChainOf, history), cap);
    var t := Tampered(history, cap, i, f);
    OtherLinksStand(ChainOf, buf, i, f);
    assert i > 0 ==> (LinkedAt(ChainOf, t, i) <==> ChainOf(buf[i - 1].chain, f.body) == f.chain);
    if i + 1 < |buf| {
      assert LinkedAt(ChainOf, buf, i + 1);
      if f.chain != buf[i].chain {
        ChainSeparatesPredecessors(f.chain, buf[i].chain, buf[i + 1].body);
        assert !LinkedAt(ChainOf, t, i + 1);
      }
    }
    if (i > 0 ==> LinkedAt(ChainOf, t, i)) && (i + 1 < |buf| ==> f.chain == buf[i].chain) {
      forall j | 0 < j < |t| ensures LinkedAt(ChainOf, t, j) {
        if i < j {
          assert i + 1 < |buf|;
        }
      }
    }
  }
}
