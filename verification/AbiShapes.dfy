/** Encodings of the shapes that the hand-written codecs produce: runs of words, static
    tuples inline, and arrays of static elements. */
module AbiShapes {
  import opened AbiWords
  import opened AbiSpec

  lemma HeadsUnfold(allT: seq<Ty>, allV: seq<Val>, t: Ty, v: Val, ts: seq<Ty>, vs: seq<Val>, off: nat)
    requires |allT| == |allV| && allV != [] && |ts| == |vs|
    requires allT[0] == t && allV[0] == v && allT[1..] == ts && allV[1..] == vs
    ensures Dynamic(t) ==> Heads(allT, allV, off) == Word(off) + Heads(ts, vs, off + |Enc(t, v)|)
    ensures !Dynamic(t) ==> Heads(allT, allV, off) == Enc(t, v) + Heads(ts, vs, off)
  {
  }

  lemma HeadsCons(t: Ty, v: Val, ts: seq<Ty>, vs: seq<Val>, off: nat)
    requires |ts| == |vs|
    ensures Dynamic(t) ==> Heads([t] + ts, [v] + vs, off) == Word(off) + Heads(ts, vs, off + |Enc(t, v)|)
    ensures !Dynamic(t) ==> Heads([t] + ts, [v] + vs, off) == Enc(t, v) + Heads(ts, vs, off)
  {
    HeadsUnfold([t] + ts, [v] + vs, t, v, ts, vs, off);
  }

  lemma TailsCons(t: Ty, v: Val, ts: seq<Ty>, vs: seq<Val>)
    requires |ts| == |vs|
    ensures Tails([t] + ts, [v] + vs) == (if Dynamic(t) then Enc(t, v) else []) + Tails(ts, vs)
  {
    var allT, allV := [t] + ts, [v] + vs;
    assert allT[1..] == ts && allV[1..] == vs;
    assert allT[0] == t && allV[0] == v;
  }

  lemma TypesCons(t: Ty, v: Val, ts: seq<Ty>, vs: seq<Val>)
    requires |ts| == |vs|
    ensures HeadsSize([t] + ts) == HeadSize(t) + HeadsSize(ts)
    ensures AnyDynamic([t] + ts) == (Dynamic(t) || AnyDynamic(ts))
    ensures HaveTypes([t] + ts, [v] + vs) == (HasType(t, v) && HaveTypes(ts, vs))
  {
    assert ([t] + ts)[1..] == ts && ([v] + vs)[1..] == vs;
  }

  /** n word types, then more. */
  function Words(n: nat, ts: seq<Ty>): (r: seq<Ty>)
    ensures |r| == n + |ts|
  {
    if n == 0 then ts else [TWord] + Words(n - 1, ts)
  }

  function WordVals(ns: seq<nat>, vs: seq<Val>): (r: seq<Val>)
    ensures |r| == |ns| + |vs|
  {
    if ns == [] then vs else [VWord(ns[0])] + WordVals(ns[1..], vs)
  }

  function WordBytes(ns: seq<nat>): (b: seq<byte>)
    ensures |b| == 32 * |ns|
  {
    if ns == [] then [] else Word(ns[0]) + WordBytes(ns[1..])
  }

  ghost predicate AllWords(ns: seq<nat>) {
    if ns == [] then true else ns[0] < WORD_LIMIT && AllWords(ns[1..])
  }

  lemma {:induction false} WordsThen(ns: seq<nat>, ts: seq<Ty>, vs: seq<Val>, off: nat)
    requires |ts| == |vs|
    ensures Heads(Words(|ns|, ts), WordVals(ns, vs), off) == WordBytes(ns) + Heads(ts, vs, off)
  {
    if ns == [] {
      assert WordBytes(ns) + Heads(ts, vs, off) == Heads(ts, vs, off);
    } else {
      WordsThen(ns[1..], ts, vs, off);
      HeadsCons(TWord, VWord(ns[0]), Words(|ns| - 1, ts), WordVals(ns[1..], vs), off);
      assert Word(ns[0]) + (WordBytes(ns[1..]) + Heads(ts, vs, off)) == WordBytes(ns) + Heads(ts, vs, off);
    }
  }

  lemma {:induction false} WordsThenTails(ns: seq<nat>, ts: seq<Ty>, vs: seq<Val>)
    requires |ts| == |vs|
    ensures Tails(Words(|ns|, ts), WordVals(ns, vs)) == Tails(ts, vs)
  {
    if ns != [] {
      WordsThenTails(ns[1..], ts, vs);
      TailsCons(TWord, VWord(ns[0]), Words(|ns| - 1, ts), WordVals(ns[1..], vs));
    }
  }

  lemma {:induction false} WordsThenTypes(ns: seq<nat>, ts: seq<Ty>, vs: seq<Val>)
    requires |ts| == |vs|
    ensures HeadsSize(Words(|ns|, ts)) == 32 * |ns| + HeadsSize(ts)
    ensures AnyDynamic(Words(|ns|, ts)) == AnyDynamic(ts)
    ensures AllWords(ns) && HaveTypes(ts, vs) ==> HaveTypes(Words(|ns|, ts), WordVals(ns, vs))
  {
    if ns != [] {
      WordsThenTypes(ns[1..], ts, vs);
      TypesCons(TWord, VWord(ns[0]), Words(|ns| - 1, ts), WordVals(ns[1..], vs));
    }
  }

  /** A tuple that starts with words: the words, then the heads and tails of the rest. */
  lemma TupleOfWordsThen(ns: seq<nat>, ts: seq<Ty>, vs: seq<Val>, size: nat)
    requires |ts| == |vs| && size == 32 * |ns| + HeadsSize(ts)
    ensures Enc(TTuple(Words(|ns|, ts)), VTuple(WordVals(ns, vs)))
         == WordBytes(ns) + Heads(ts, vs, size) + Tails(ts, vs)
  {
    WordsThenTypes(ns, ts, vs);
    WordsThen(ns, ts, vs, size);
    WordsThenTails(ns, ts, vs);
    TupleParts(Words(|ns|, ts), WordVals(ns, vs), size, WordBytes(ns) + Heads(ts, vs, size), Tails(ts, vs));
  }

  lemma TupleParts(ts: seq<Ty>, vs: seq<Val>, size: nat, heads: seq<byte>, tails: seq<byte>)
    requires |ts| == |vs| && HeadsSize(ts) == size
    requires Heads(ts, vs, size) == heads && Tails(ts, vs) == tails
    ensures Enc(TTuple(ts), VTuple(vs)) == heads + tails
  {
  }

  function WordTupleTy(n: nat): Ty { TTuple(Words(n, [])) }

  /** A tuple of words is static and is the concatenation of its words. */
  lemma WordTuple(ns: seq<nat>)
    ensures Enc(WordTupleTy(|ns|), VTuple(WordVals(ns, []))) == WordBytes(ns)
  {
    var ts, vs := Words(|ns|, []), WordVals(ns, []);
    WordsThen(ns, [], [], HeadsSize(ts));
    WordsThenTails(ns, [], []);
    assert Heads(ts, vs, HeadsSize(ts)) == WordBytes(ns);
    assert WordBytes(ns) + [] == WordBytes(ns);
  }

  lemma WordTupleTyped(ns: seq<nat>)
    ensures !Dynamic(WordTupleTy(|ns|)) && HeadSize(WordTupleTy(|ns|)) == 32 * |ns|
    ensures AllWords(ns) ==> HasType(WordTupleTy(|ns|), VTuple(WordVals(ns, [])))
  {
    WordsThenTypes(ns, [], []);
  }

  /** Static words and one dynamic component: the words, its offset, then the component. */
  lemma WordsAndOneDynamic(ns: seq<nat>, t: Ty, v: Val)
    requires Dynamic(t)
    ensures Enc(TTuple(Words(|ns|, [t])), VTuple(WordVals(ns, [v])))
         == WordBytes(ns) + Word(32 * |ns| + 32) + Enc(t, v)
  {
    OneComponent(t, v, 32 * |ns| + 32);
    TupleOfWordsThen(ns, [t], [v], 32 * |ns| + 32);
  }

  lemma OneComponent(t: Ty, v: Val, off: nat)
    requires Dynamic(t)
    ensures Heads([t], [v], off) == Word(off) && Tails([t], [v]) == Enc(t, v) && HeadsSize([t]) == 32
  {
    HeadsCons(t, v, [], [], off);
    TailsCons(t, v, [], []);
    TypesCons(t, v, [], []);
    EmptyRight([t]);
    EmptyRight([v]);
    EmptyRight(Word(off));
    EmptyRight(Enc(t, v));
  }

  lemma SixWords(a: nat, b: nat, c: nat, d: nat, e: nat, g: nat)
    ensures WordBytes([a, b, c, d, e, g]) == Word(a) + Word(b) + Word(c) + Word(d) + Word(e) + Word(g)
  {
    WordBytesCons(a, [b, c, d, e, g]);
    WordBytesCons(b, [c, d, e, g]);
    WordBytesCons(c, [d, e, g]);
    WordBytesCons(d, [e, g]);
    WordBytesCons(e, [g]);
    WordBytesCons(g, []);
  }

  lemma WordBytesCons(n: nat, ns: seq<nat>)
    ensures WordBytes([n] + ns) == Word(n) + WordBytes(ns)
  {
    assert ([n] + ns)[1..] == ns;
  }

  lemma FourWords(a: nat, b: nat, c: nat, d: nat)
    ensures WordBytes([a, b, c, d]) == Word(a) + Word(b) + Word(c) + Word(d)
  {
    WordBytesCons(a, [b, c, d]);
    WordBytesCons(b, [c, d]);
    WordBytesCons(c, [d]);
    WordBytesCons(d, []);
  }

  lemma FitsCons(n: nat, ns: seq<nat>)
    requires n < WORD_LIMIT && AllWords(ns)
    ensures AllWords([n] + ns)
  {
    assert ([n] + ns)[1..] == ns;
  }

  lemma SmallFits(n: nat)
    requires n < 0x1_00000000
    ensures n < WORD_LIMIT
  {
    PowMonotone(4, 32);
    assert Pow256(4) == 0x1_00000000;
  }

  function ConcatEnc(t: Ty, vs: seq<Val>): seq<byte> {
    if vs == [] then [] else Enc(t, vs[0]) + ConcatEnc(t, vs[1..])
  }

  lemma {:induction false} StaticArrayParts(t: Ty, vs: seq<Val>, off: nat)
    requires !Dynamic(t)
    ensures Heads(Copies(t, |vs|), vs, off) == ConcatEnc(t, vs)
    ensures Tails(Copies(t, |vs|), vs) == []
  {
    if vs != [] {
      assert Copies(t, |vs|)[1..] == Copies(t, |vs| - 1);
      StaticArrayParts(t, vs[1..], off);
    }
  }

  /** An array of static elements is its length word and its elements, one after the other. */
  lemma StaticArray(t: Ty, vs: seq<Val>)
    requires !Dynamic(t)
    ensures Enc(TArray(t), VArray(vs)) == Word(|vs|) + ConcatEnc(t, vs)
  {
    StaticArrayParts(t, vs, HeadsSize(Copies(t, |vs|)));
  }

  lemma ConcatEncTwo(t: Ty, a: Val, b: Val)
    ensures ConcatEnc(t, [a, b]) == Enc(t, a) + Enc(t, b)
  {
    assert [a, b][1..] == [b] && [b][1..] == [];
    assert ConcatEnc(t, [b]) == Enc(t, b) + ConcatEnc(t, []);
    EmptyRight(Enc(t, b));
  }

  lemma {:induction false} ConcatEncSnoc(t: Ty, vs: seq<Val>, v: Val)
    ensures ConcatEnc(t, vs + [v]) == ConcatEnc(t, vs) + Enc(t, v)
  {
    if vs == [] {
      assert ([] + [v])[1..] == [];
    } else {
      assert (vs + [v])[1..] == vs[1..] + [v];
      ConcatEncSnoc(t, vs[1..], v);
    }
  }

  lemma {:induction false} ArrayTyped(t: Ty, vs: seq<Val>)
    requires forall i | 0 <= i < |vs| :: HasType(t, vs[i])
    ensures HaveTypes(Copies(t, |vs|), vs)
  {
    if vs != [] {
      assert Copies(t, |vs|)[1..] == Copies(t, |vs| - 1);
      forall i | 0 <= i < |vs[1..]| ensures HasType(t, vs[1..][i]) {
        assert vs[1..][i] == vs[i+1];
      }
      ArrayTyped(t, vs[1..]);
    }
  }
}
