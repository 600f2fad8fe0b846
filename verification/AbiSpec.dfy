/** The contract ABI as its specification defines it ("Formal Specification of the
    Encoding", Solidity Contract ABI Specification): an encoder for any typed value and a
    decoder that finds dynamic parts by following their offsets. The hand-written codecs
    are proved against this module; nothing here is taken from them. */
module AbiSpec {
  import opened Outcomes
  import opened AbiWords

  /** TWord stands for every elementary type that takes one word. */
  datatype Ty = TWord | TBytes | TArray(elem: Ty) | TTuple(elems: seq<Ty>)
  datatype Val = VWord(n: nat) | VBytes(b: seq<byte>) | VArray(items: seq<Val>) | VTuple(parts: seq<Val>)

  predicate Dynamic(t: Ty)
    decreases t, 0
  {
    match t
    case TWord => false
    case TBytes => true
    case TArray(_) => true
    case TTuple(ts) => AnyDynamic(ts)
  }

  predicate AnyDynamic(ts: seq<Ty>)
    decreases ts, 0
  {
    if ts == [] then false else Dynamic(ts[0]) || AnyDynamic(ts[1..])
  }

  /** Bytes a component takes in the head: its own encoding, or one offset word. */
  function HeadSize(t: Ty): nat
    decreases t, 0
  {
    if Dynamic(t) then 32 else
    match t
    case TTuple(ts) => HeadsSize(ts)
    case _ => 32
  }

  function HeadsSize(ts: seq<Ty>): nat
    decreases ts, 0
  {
    if ts == [] then 0 else HeadSize(ts[0]) + HeadsSize(ts[1..])
  }

  function Copies(t: Ty, n: nat): (ts: seq<Ty>)
    ensures |ts| == n
    decreases n
  {
    if n == 0 then [] else [t] + Copies(t, n - 1)
  }

  ghost predicate HasType(t: Ty, v: Val)
    decreases v, 0
  {
    match (t, v)
    case (TWord, VWord(n)) => n < WORD_LIMIT
    case (TBytes, VBytes(b)) => |b| < WORD_LIMIT
    case (TArray(e), VArray(vs)) => |vs| < WORD_LIMIT && HaveTypes(Copies(e, |vs|), vs)
    case (TTuple(ts), VTuple(vs)) => |ts| == |vs| && HaveTypes(ts, vs)
    case _ => false
  }

  ghost predicate HaveTypes(ts: seq<Ty>, vs: seq<Val>)
    requires |ts| == |vs|
    decreases vs, 0
  {
    if vs == [] then true else HasType(ts[0], vs[0]) && HaveTypes(ts[1..], vs[1..])
  }

  function Enc(t: Ty, v: Val): seq<byte>
    decreases v, 0
  {
    match (t, v)
    case (TWord, VWord(n)) => Word(n)
    case (TBytes, VBytes(b)) => Word(|b|) + Pad32(b)
    case (TArray(e), VArray(vs)) => Word(|vs|) + EncSeq(Copies(e, |vs|), vs)
    case (TTuple(ts), VTuple(vs)) => if |ts| == |vs| then EncSeq(ts, vs) else []
    case _ => []
  }

  /** Heads first, tails after them; offsets count from the start of the heads. */
  function EncSeq(ts: seq<Ty>, vs: seq<Val>): seq<byte>
    requires |ts| == |vs|
    decreases vs, 2
  {
    Heads(ts, vs, HeadsSize(ts)) + Tails(ts, vs)
  }

  function Heads(ts: seq<Ty>, vs: seq<Val>, off: nat): seq<byte>
    requires |ts| == |vs|
    decreases vs, 1
  {
    if vs == [] then []
    else if Dynamic(ts[0]) then Word(off) + Heads(ts[1..], vs[1..], off + |Enc(ts[0], vs[0])|)
    else Enc(ts[0], vs[0]) + Heads(ts[1..], vs[1..], off)
  }

  function Tails(ts: seq<Ty>, vs: seq<Val>): seq<byte>
    requires |ts| == |vs|
    decreases vs, 0
  {
    if vs == [] then [] else (if Dynamic(ts[0]) then Enc(ts[0], vs[0]) else []) + Tails(ts[1..], vs[1..])
  }

  // ------------------------------------------------------------------ the decoder

  function Depth(t: Ty): nat
    decreases t, 0
  {
    match t
    case TWord => 0
    case TBytes => 0
    case TArray(e) => Depth(e) + 1
    case TTuple(ts) => MaxDepth(ts) + 1
  }

  function MaxDepth(ts: seq<Ty>): nat
    decreases ts, 0
  {
    if ts == [] then 0
    else if Depth(ts[0]) >= MaxDepth(ts[1..]) then Depth(ts[0]) else MaxDepth(ts[1..])
  }

  lemma {:induction false} CopiesDepth(t: Ty, n: nat)
    ensures MaxDepth(Copies(t, n)) <= Depth(t)
  {
    if n > 0 {
      CopiesDepth(t, n - 1);
      assert Copies(t, n)[1..] == Copies(t, n - 1);
    }
  }

  function WordAt(d: seq<byte>, pos: nat): Option<nat> {
    if pos + 32 <= |d| then Some(FromBytes(d[pos..pos+32])) else None
  }

  /** Decodes the value of type t that starts at the beginning of d. */
  function Dec(t: Ty, d: seq<byte>): Option<Val>
    decreases Depth(t), 0
  {
    match t
    case TWord => (match WordAt(d, 0) case None => None case Some(n) => Some(VWord(n)))
    case TBytes =>
      (match WordAt(d, 0)
       case None => None
       case Some(n) => if 32 + n <= |d| then Some(VBytes(d[32..32+n])) else None)
    case TArray(e) =>
      (match WordAt(d, 0)
       case None => None
       case Some(n) =>
         CopiesDepth(e, n);
         match DecSeq(Copies(e, n), d[32..], 0)
         case None => None
         case Some(vs) => Some(VArray(vs)))
    case TTuple(ts) =>
      (match DecSeq(ts, d, 0)
       case None => None
       case Some(vs) => Some(VTuple(vs)))
  }

  /** Decodes components whose heads start at pos; offsets count from the start of d. */
  function DecSeq(ts: seq<Ty>, d: seq<byte>, pos: nat): Option<seq<Val>>
    decreases MaxDepth(ts), 1 + |ts|
  {
    if ts == [] then Some([])
    else
      var start := if Dynamic(ts[0]) then WordAt(d, pos) else Some(pos);
      if start.None? || start.value > |d| then None
      else
        var v := Dec(ts[0], d[start.value..]);
        var vs := DecSeq(ts[1..], d, pos + HeadSize(ts[0]));
        if v.None? || vs.None? then None else Some([v.value] + vs.value)
  }

  // ------------------------------------------------------------------ round trip

  ghost predicate At(d: seq<byte>, pos: nat, s: seq<byte>) {
    pos + |s| <= |d| && d[pos..pos+|s|] == s
  }

  lemma AtSplit(d: seq<byte>, pos: nat, a: seq<byte>, b: seq<byte>)
    requires At(d, pos, a + b)
    ensures At(d, pos, a) && At(d, pos + |a|, b)
  {
    var s := d[pos..pos+|a+b|];
    assert d[pos..pos+|a|] == s[..|a|];
    assert d[pos+|a|..pos+|a|+|b|] == s[|a|..];
  }

  lemma AtShift(d: seq<byte>, base: nat, pos: nat, s: seq<byte>)
    requires base <= |d| && At(d, base + pos, s)
    ensures At(d[base..], pos, s)
  {
    assert d[base..][pos..pos+|s|] == d[base+pos..base+pos+|s|];
  }

  lemma WordAtReads(d: seq<byte>, pos: nat, n: nat)
    requires n < WORD_LIMIT && At(d, pos, Word(n))
    ensures WordAt(d, pos) == Some(n)
  {
    WordReads(n);
  }

  lemma {:induction false} HeadsLength(ts: seq<Ty>, vs: seq<Val>, off: nat)
    requires |ts| == |vs| && HaveTypes(ts, vs)
    ensures |Heads(ts, vs, off)| == HeadsSize(ts)
    decreases vs, 1
  {
    if vs != [] {
      if Dynamic(ts[0]) {
        HeadsLength(ts[1..], vs[1..], off + |Enc(ts[0], vs[0])|);
      } else {
        StaticLength(ts[0], vs[0]);
        HeadsLength(ts[1..], vs[1..], off);
      }
    }
  }

  /** A static value always takes exactly its head size. */
  lemma {:induction false} StaticLength(t: Ty, v: Val)
    requires HasType(t, v) && !Dynamic(t)
    ensures |Enc(t, v)| == HeadSize(t)
    decreases v, 0
  {
    if t.TTuple? {
      HeadsLength(t.elems, v.parts, HeadsSize(t.elems));
      StaticTails(t.elems, v.parts);
    }
  }

  lemma {:induction false} StaticTails(ts: seq<Ty>, vs: seq<Val>)
    requires |ts| == |vs| && !AnyDynamic(ts)
    ensures Tails(ts, vs) == []
  {
    if vs != [] {
      StaticTails(ts[1..], vs[1..]);
    }
  }

  /** Following offsets recovers every value from its encoding, whatever follows it. */
  lemma {:induction false} RoundTrip(t: Ty, v: Val, d: seq<byte>)
    requires HasType(t, v) && At(d, 0, Enc(t, v)) && |Enc(t, v)| < WORD_LIMIT
    ensures Dec(t, d) == Some(v)
    decreases v, 0
  {
    match v {
      case VWord(n) => WordAtReads(d, 0, n);
      case VBytes(b) =>
        AtSplit(d, 0, Word(|b|), Pad32(b));
        AtSplit(d, 32, b, Zeros(Padding(|b|)));
        WordAtReads(d, 0, |b|);
      case VArray(vs) =>
        var ts := Copies(t.elem, |vs|);
        AtSplit(d, 0, Word(|vs|), EncSeq(ts, vs));
        WordAtReads(d, 0, |vs|);
        AtShift(d, 32, 0, EncSeq(ts, vs));
        SeqRoundTripFromStart(ts, vs, d[32..]);
      case VTuple(vs) =>
        SeqRoundTripFromStart(t.elems, vs, d);
    }
  }

  lemma SeqRoundTripFromStart(ts: seq<Ty>, vs: seq<Val>, d: seq<byte>)
    requires |ts| == |vs| && HaveTypes(ts, vs)
    requires At(d, 0, EncSeq(ts, vs)) && |EncSeq(ts, vs)| < WORD_LIMIT
    ensures DecSeq(ts, d, 0) == Some(vs)
    decreases vs, 3
  {
    var heads, tails := Heads(ts, vs, HeadsSize(ts)), Tails(ts, vs);
    HeadsLength(ts, vs, HeadsSize(ts));
    AtSplit(d, 0, heads, tails);
    SeqRoundTrip(ts, vs, d, 0, HeadsSize(ts));
  }

  lemma DynamicPlaces(ts: seq<Ty>, vs: seq<Val>, d: seq<byte>, pos: nat, off: nat)
    requires |ts| == |vs| && vs != [] && Dynamic(ts[0])
    requires At(d, pos, Heads(ts, vs, off)) && At(d, off, Tails(ts, vs))
    ensures At(d, pos, Word(off)) && At(d, pos + 32, Heads(ts[1..], vs[1..], off + |Enc(ts[0], vs[0])|))
    ensures At(d, off, Enc(ts[0], vs[0])) && At(d, off + |Enc(ts[0], vs[0])|, Tails(ts[1..], vs[1..]))
    ensures |Tails(ts, vs)| == |Enc(ts[0], vs[0])| + |Tails(ts[1..], vs[1..])|
  {
    var encoded := Enc(ts[0], vs[0]);
    assert Heads(ts, vs, off) == Word(off) + Heads(ts[1..], vs[1..], off + |encoded|);
    assert Tails(ts, vs) == encoded + Tails(ts[1..], vs[1..]);
    AtSplit(d, pos, Word(off), Heads(ts[1..], vs[1..], off + |encoded|));
    AtSplit(d, off, encoded, Tails(ts[1..], vs[1..]));
  }

  lemma DynamicReads(t: Ty, v: Val, d: seq<byte>, pos: nat, off: nat)
    requires HasType(t, v) && At(d, pos, Word(off)) && At(d, off, Enc(t, v)) && off + |Enc(t, v)| < WORD_LIMIT
    ensures WordAt(d, pos) == Some(off) && off <= |d| && Dec(t, d[off..]) == Some(v)
    decreases v, 1
  {
    WordAtReads(d, pos, off);
    AtShift(d, off, 0, Enc(t, v));
    RoundTrip(t, v, d[off..]);
  }

  lemma StaticHead(ts: seq<Ty>, vs: seq<Val>, d: seq<byte>, pos: nat, off: nat)
    requires |ts| == |vs| && vs != [] && HasType(ts[0], vs[0]) && !Dynamic(ts[0])
    requires At(d, pos, Heads(ts, vs, off)) && |Heads(ts, vs, off)| < WORD_LIMIT
    ensures pos <= |d| && Dec(ts[0], d[pos..]) == Some(vs[0])
    ensures At(d, pos + HeadSize(ts[0]), Heads(ts[1..], vs[1..], off))
    ensures Tails(ts, vs) == Tails(ts[1..], vs[1..])
    ensures |Heads(ts[1..], vs[1..], off)| < WORD_LIMIT
    decreases vs, 0
  {
    var encoded := Enc(ts[0], vs[0]);
    StaticLength(ts[0], vs[0]);
    AtSplit(d, pos, encoded, Heads(ts[1..], vs[1..], off));
    AtShift(d, pos, 0, encoded);
    RoundTrip(ts[0], vs[0], d[pos..]);
  }

  lemma DecSeqStep(ts: seq<Ty>, d: seq<byte>, pos: nat, start: nat, v: Val, rest: seq<Val>)
    requires ts != [] && start <= |d|
    requires if Dynamic(ts[0]) then WordAt(d, pos) == Some(start) else start == pos
    requires Dec(ts[0], d[start..]) == Some(v) && DecSeq(ts[1..], d, pos + HeadSize(ts[0])) == Some(rest)
    ensures DecSeq(ts, d, pos) == Some([v] + rest)
  {
  }

  /** The heads at pos point into the tails at off. */
  ghost predicate Laid(ts: seq<Ty>, vs: seq<Val>, d: seq<byte>, pos: nat, off: nat) {
    && |ts| == |vs| && HaveTypes(ts, vs)
    && At(d, pos, Heads(ts, vs, off)) && At(d, off, Tails(ts, vs))
    && off + |Tails(ts, vs)| < WORD_LIMIT && |Heads(ts, vs, off)| < WORD_LIMIT
  }

  lemma LaidAfterDynamic(ts: seq<Ty>, vs: seq<Val>, d: seq<byte>, pos: nat, off: nat)
    requires Laid(ts, vs, d, pos, off) && vs != [] && Dynamic(ts[0])
    ensures Laid(ts[1..], vs[1..], d, pos + 32, off + |Enc(ts[0], vs[0])|)
    ensures At(d, pos, Word(off)) && At(d, off, Enc(ts[0], vs[0])) && off + |Enc(ts[0], vs[0])| < WORD_LIMIT
  {
    DynamicPlaces(ts, vs, d, pos, off);
    HeadsLength(ts, vs, off);
    HeadsLength(ts[1..], vs[1..], off + |Enc(ts[0], vs[0])|);
  }

  /** One head read: where its value starts and where the rest is laid out. */
  lemma HeadReads(ts: seq<Ty>, vs: seq<Val>, d: seq<byte>, pos: nat, off: nat) returns (start: nat, next: nat)
    requires Laid(ts, vs, d, pos, off) && vs != []
    ensures start <= |d| && (if Dynamic(ts[0]) then WordAt(d, pos) == Some(start) else start == pos)
    ensures Dec(ts[0], d[start..]) == Some(vs[0])
    ensures Laid(ts[1..], vs[1..], d, pos + HeadSize(ts[0]), next)
    decreases vs, 1
  {
    if Dynamic(ts[0]) {
      LaidAfterDynamic(ts, vs, d, pos, off);
      DynamicReads(ts[0], vs[0], d, pos, off);
      start, next := off, off + |Enc(ts[0], vs[0])|;
    } else {
      StaticHead(ts, vs, d, pos, off);
      start, next := pos, off;
    }
  }

  lemma {:induction false} SeqRoundTrip(ts: seq<Ty>, vs: seq<Val>, d: seq<byte>, pos: nat, off: nat)
    requires Laid(ts, vs, d, pos, off)
    ensures DecSeq(ts, d, pos) == Some(vs)
    decreases vs, 2
  {
    if vs != [] {
      var start, next := HeadReads(ts, vs, d, pos, off);
      SeqRoundTrip(ts[1..], vs[1..], d, pos + HeadSize(ts[0]), next);
      DecSeqStep(ts, d, pos, start, vs[0], vs[1..]);
      assert [vs[0]] + vs[1..] == vs;
    }
  }

  /** Decoding a complete encoding gives the value back. */
  lemma DecodeEncode(t: Ty, v: Val)
    requires HasType(t, v) && |Enc(t, v)| < WORD_LIMIT
    ensures Dec(t, Enc(t, v)) == Some(v)
  {
    var d := Enc(t, v);
    assert d[0..0+|d|] == d;
    RoundTrip(t, v, d);
  }
}
