/** Sets of small ids, stored as the bits of a sequence of machine words. */
module BitSets {
  import opened Sequences
  import opened Words

  predicate Holds(words: seq<Word>, x: nat) {
    x / BITS < |words| && Bit(words[x / BITS], x % BITS)
  }

  ghost function Members(words: seq<Word>): set<nat> {
    set x: nat | x < BITS * |words| && Holds(words, x)
  }

  lemma MembersHold(words: seq<Word>, x: nat)
    ensures x in Members(words) <==> Holds(words, x)
  {
  }

  ghost function WordAt(words: seq<Word>, i: nat): Word {
    if i < |words| then words[i] else 0
  }

  lemma HoldsAt(words: seq<Word>, i: nat, j: nat)
    requires j < BITS
    ensures BITS * i + j in Members(words) <==> Bit(WordAt(words, i), j)
  {
    MembersHold(words, BITS * i + j);
    ZeroHasNoBits(j);
    assert (BITS * i + j) / BITS == i && (BITS * i + j) % BITS == j;
  }

  /** Inclusion is a matter of the single words, whatever the widths. */
  lemma SubsetByWords(l: seq<Word>, r: seq<Word>)
    ensures Members(l) <= Members(r) <==> forall i: nat :: BitsWithin(WordAt(l, i), WordAt(r, i))
  {
    if Members(l) <= Members(r) {
      forall i: nat
        ensures BitsWithin(WordAt(l, i), WordAt(r, i))
      {
        forall j: nat | j < 64 && Bit(WordAt(l, i), j)
          ensures Bit(WordAt(r, i), j)
        {
          HoldsAt(l, i, j);
          HoldsAt(r, i, j);
        }
      }
    }
    if forall i: nat :: BitsWithin(WordAt(l, i), WordAt(r, i)) {
      forall x | x in Members(l)
        ensures x in Members(r)
      {
        var i, j := x / BITS, x % BITS;
        assert BitsWithin(WordAt(l, i), WordAt(r, i));
        HoldsAt(l, i, j);
        HoldsAt(r, i, j);
      }
    }
  }

  /** The comparison of two sequences of words: equal where both have words, and zero elsewhere. */
  predicate WordsEqual(l: seq<Word>, r: seq<Word>) {
    if |l| == |r| then l == r
    else
      var minSize := if |l| < |r| then |l| else |r|;
      && l[..minSize] == r[..minSize]
      && AllZero((if |l| > |r| then l else r)[minSize..])
  }

  predicate AllZero(words: seq<Word>) {
    forall i: nat :: i < |words| ==> words[i] == 0
  }

  lemma EqualByWords(l: seq<Word>, r: seq<Word>)
    ensures WordsEqual(l, r) <==> forall i: nat :: WordAt(l, i) == WordAt(r, i)
  {
    if WordsEqual(l, r) {
      var minSize := if |l| < |r| then |l| else |r|;
      var longer := if |l| > |r| then l else r;
      forall i: nat
        ensures WordAt(l, i) == WordAt(r, i)
      {
        if i < minSize {
          assert |l| != |r| ==> l[..minSize][i] == r[..minSize][i];
        } else if |l| != |r| && i < |longer| {
          var rest := longer[minSize..];
          assert AllZero(rest) && rest[i - minSize] == longer[i];
        }
      }
    }
    if forall i: nat :: WordAt(l, i) == WordAt(r, i) {
      var minSize := if |l| < |r| then |l| else |r|;
      forall i: nat
        ensures i < |l| && i < |r| ==> l[i] == r[i]
        ensures |r| <= i < |l| ==> l[i] == 0
        ensures |l| <= i < |r| ==> r[i] == 0
      {
        assert WordAt(l, i) == WordAt(r, i);
      }
    }
  }

  /** Sets of different widths are equal exactly if they have the same members. */
  lemma EqualExactly(l: seq<Word>, r: seq<Word>)
    ensures WordsEqual(l, r) <==> Members(l) == Members(r)
  {
    EqualByWords(l, r);
    SubsetByWords(l, r);
    SubsetByWords(r, l);
    forall i: nat
      ensures WordAt(l, i) == WordAt(r, i) <==>
              BitsWithin(WordAt(l, i), WordAt(r, i)) && BitsWithin(WordAt(r, i), WordAt(l, i))
    {
      SameBits(WordAt(l, i), WordAt(r, i));
    }
    assert Members(l) == Members(r) <==> Members(l) <= Members(r) && Members(r) <= Members(l);
  }

  function MergedWords(l: seq<Word>, r: seq<Word>): (m: seq<Word>)
    requires |l| >= |r|
  {
    seq(|l|, i requires 0 <= i < |l| => if i < |r| then Or(l[i], r[i]) else l[i])
  }

  function DifferenceWords(l: seq<Word>, r: seq<Word>): (m: seq<Word>) {
    seq(|l|, i requires 0 <= i < |l| => if i < |r| then AndNot(l[i], r[i]) else l[i])
  }

  lemma MergedMembers(l: seq<Word>, r: seq<Word>)
    requires |l| >= |r|
    ensures Members(MergedWords(l, r)) == Members(l) + Members(r)
  {
    hide Or;
    forall x: nat
      ensures x in Members(MergedWords(l, r)) <==> x in Members(l) + Members(r)
    {
      var i, j := x / BITS, x % BITS;
      HoldsAt(l, i, j);
      HoldsAt(r, i, j);
      HoldsAt(MergedWords(l, r), i, j);
      BitOfOr(WordAt(l, i), WordAt(r, i), j);
      ZeroHasNoBits(j);
    }
  }

  lemma DifferenceMembers(l: seq<Word>, r: seq<Word>)
    ensures Members(DifferenceWords(l, r)) == Members(l) - Members(r)
  {
    hide AndNot;
    forall x: nat
      ensures x in Members(DifferenceWords(l, r)) <==> x in Members(l) - Members(r)
    {
      var i, j := x / BITS, x % BITS;
      HoldsAt(l, i, j);
      HoldsAt(r, i, j);
      HoldsAt(DifferenceWords(l, r), i, j);
      BitOfAndNot(WordAt(l, i), WordAt(r, i), j);
      ZeroHasNoBits(j);
    }
  }

  lemma SetMembers(words: seq<Word>, id: nat)
    requires id / BITS < |words|
    ensures Members(words[id / BITS := Or(words[id / BITS], OneBit(id % BITS))]) == Members(words) + {id}
    ensures Members(words[id / BITS := AndNot(words[id / BITS], OneBit(id % BITS))]) == Members(words) - {id}
  {
    hide Or, AndNot;
    var w, bit := words[id / BITS], OneBit(id % BITS);
    var more, less := words[id / BITS := Or(w, bit)], words[id / BITS := AndNot(w, bit)];
    forall x: nat
      ensures x in Members(more) <==> x in Members(words) || x == id
      ensures x in Members(less) <==> x in Members(words) && x != id
    {
      var i, j := x / BITS, x % BITS;
      HoldsAt(words, i, j);
      HoldsAt(more, i, j);
      HoldsAt(less, i, j);
      BitOfOr(w, bit, j);
      BitOfAndNot(w, bit, j);
      BitOfOne(id % BITS, j);
    }
  }

  lemma PaddedMembers(words: seq<Word>, n: nat)
    ensures Members(words + seq(n, _ => 0)) == Members(words)
  {
    var padded := words + seq(n, _ => 0);
    forall x: nat
      ensures x in Members(padded) <==> x in Members(words)
    {
      HoldsAt(words, x / BITS, x % BITS);
      HoldsAt(padded, x / BITS, x % BITS);
    }
  }

  function WordsFor(size: nat): nat {
    (size + BITS - 1) / BITS
  }

  class BitSet {
    var words: seq<Word>
    var size: nat

    /** The bits behind the size are clear. */
    ghost predicate Valid()
      reads this
    {
      |words| == WordsFor(size) && forall x :: x in Members(words) ==> x < size
    }

    ghost function Elements(): set<nat>
      reads this
    {
      Members(words)
    }

    constructor (initialCapacity: nat)
      ensures Valid() && Elements() == {} && size == initialCapacity
    {
      words, size := seq(WordsFor(initialCapacity), _ => 0), initialCapacity;
      new;
      PaddedMembers([], WordsFor(initialCapacity));
      assert [] + words == words;
    }

    method Reserve(cap: nat)
      requires Valid()
      modifies this
      ensures Valid() && Elements() == old(Elements()) && size == if old(size) < cap then cap else old(size)
    {
      if size < cap {
        PaddedMembers(words, WordsFor(cap) - |words|);
        words := words + seq(WordsFor(cap) - |words|, _ => 0);
        size := cap;
      }
    }

    predicate Contains(id: nat)
      requires Valid()
      reads this
      ensures Contains(id) <==> id in Elements()
    {
      MembersHold(words, id);
      size > id && Bit(words[id / BITS], id % BITS)
    }

    method Insert(id: nat)
      requires Valid()
      modifies this
      ensures Valid() && Elements() == old(Elements()) + {id}
    {
      if size <= id {
        Reserve(id + 1);
      }
      SetMembers(words, id);
      words := words[id / BITS := Or(words[id / BITS], OneBit(id % BITS))];
    }

    method TryInsert(id: nat) returns (inserted: bool)
      requires Valid()
      modifies this
      ensures Valid() && Elements() == old(Elements()) + {id}
      ensures inserted <==> Elements() != old(Elements())
    {
      ghost var elements := Elements();
      if size <= id {
        Reserve(id + 1);
      }
      MembersHold(words, id);
      inserted := !Bit(words[id / BITS], id % BITS);
      SetMembers(words, id);
      words := words[id / BITS := Or(words[id / BITS], OneBit(id % BITS))];
      assert id in Elements() && (inserted <==> id !in elements);
    }

    method Erase(id: nat)
      requires Valid()
      modifies this
      ensures Valid() && Elements() == old(Elements()) - {id}
    {
      MembersHold(words, id);
      if size > id {
        SetMembers(words, id);
        words := words[id / BITS := AndNot(words[id / BITS], OneBit(id % BITS))];
      }
    }

    method TryErase(id: nat) returns (erased: bool)
      requires Valid()
      modifies this
      ensures Valid() && Elements() == old(Elements()) - {id}
      ensures erased <==> Elements() != old(Elements())
    {
      if Contains(id) {
        Erase(id);
        assert id in old(Elements()) && id !in Elements();
        return true;
      }
      erased := false;
    }

    method MergeWith(other: BitSet)
      requires Valid() && other.Valid()
      modifies this
      ensures Valid() && Elements() == old(Elements()) + old(other.Elements())
    {
      Reserve(other.size);
      MergedMembers(words, other.words);
      words := MergedWords(words, other.words);
    }

    method TryMergeWith(other: BitSet) returns (changed: bool)
      requires Valid() && other.Valid()
      modifies this
      ensures Valid() && Elements() == old(Elements()) + old(other.Elements())
      ensures changed <==> Elements() != old(Elements())
    {
      var superset := other.IsSubsetOf(this);
      if superset {
        assert Elements() == Elements() + other.Elements();
        return false;
      }
      ghost var x :| x in other.Elements() && x !in Elements();
      MergeWith(other);
      assert x in Elements();
      changed := true;
    }

    method EraseAllOf(other: BitSet)
      requires Valid() && other.Valid()
      modifies this
      ensures Valid() && Elements() == old(Elements()) - old(other.Elements())
    {
      DifferenceMembers(words, other.words);
      words := DifferenceWords(words, other.words);
    }

    method Clear()
      requires Valid()
      modifies this
      ensures Valid() && Elements() == {} && size == old(size)
    {
      PaddedMembers([], |words|);
      words := seq(|words|, _ => 0);
      assert [] + words == words;
    }

    predicate Equals(other: BitSet)
      reads this, other
      ensures Equals(other) <==> Elements() == other.Elements()
    {
      EqualExactly(words, other.words);
      WordsEqual(words, other.words)
    }

    method IsSubsetOf(of: BitSet) returns (b: bool)
      ensures b <==> Elements() <= of.Elements()
    {
      SubsetByWords(words, of.words);
      if |words| > |of.words| {
        for i := |of.words| to |words|
          invariant forall m: nat :: |of.words| <= m < i ==> words[m] == 0
        {
          if words[i] != 0 {
            NothingWithinZero(words[i]);
            assert !BitsWithin(WordAt(words, i), WordAt(of.words, i));
            return false;
          }
        }
      }
      var common := if |words| < |of.words| then |words| else |of.words|;
      for i := 0 to common
        invariant forall m: nat :: m < i ==> BitsWithin(words[m], of.words[m])
      {
        Subset(words[i], of.words[i]);
        if AndNot(words[i], of.words[i]) != 0 {
          assert !BitsWithin(WordAt(words, i), WordAt(of.words, i));
          return false;
        }
      }
      NothingWithinZero(0);
      b := true;
    }

    /** Visits the elements until the handler, which is shown all visits so far, asks to stop. */
    method Foreach(handler: seq<nat> -> bool) returns (visited: seq<nat>, finished: bool)
      ensures Ascending(visited) && (forall x :: x in visited ==> x in Elements())
      ensures forall n: nat :: 0 < n < |visited| ==> handler(visited[..n])
      ensures finished ==> (forall x :: x in Elements() ==> x in visited) && (visited != [] ==> handler(visited))
      ensures !finished ==> visited != [] && !handler(visited)
      ensures !finished ==> forall x :: x in Elements() && x < visited[|visited| - 1] ==> x in visited
    {
      visited := [];
      var offset := 0;
      for i := 0 to |words|
        invariant offset == BITS * i && VisitedBefore(words, offset, visited) && AllowedBy(handler, visited)
      {
        visited, finished := VisitWord(words[i], i, offset, handler, visited);
        if !finished {
          ghost var allowed := visited[..|visited| - 1];
          assert forall n: nat :: 0 < n < |visited| ==> visited[..n] == allowed[..n];
          return;
        }
        offset := offset + BITS;
      }
      forall x | x in Elements()
        ensures x in visited
      {
        assert x < offset;
      }
      assert visited[..|visited|] == visited;
      finished := true;
    }

    method VisitWord(word: Word, ghost i: nat, offset: nat, handler: seq<nat> -> bool, before: seq<nat>)
      returns (visited: seq<nat>, finished: bool)
      requires i < |words| && word == words[i] && offset == BITS * i
      requires VisitedBefore(words, offset, before) && AllowedBy(handler, before)
      ensures finished ==> VisitedBefore(words, offset + BITS, visited) && AllowedBy(handler, visited)
      ensures !finished ==> visited != [] && !handler(visited) && AllowedBy(handler, visited[..|visited| - 1])
      ensures !finished ==> VisitedBefore(words, visited[|visited| - 1] + 1, visited)
    {
      hide VisitedBefore, AllowedBy, Remaining, WithoutLowest, CountrZero, Half, Members, Ascending;
      var w := word;
      visited := before;
      AllRemains(word);
      ghost var next := offset;
      while w != 0
        invariant offset <= next <= offset + BITS && VisitedBefore(words, next, visited) && AllowedBy(handler, visited)
        invariant Remaining(w, word, next - offset)
        decreases offset + BITS - next
      {
        var curr := CountrZero(w) + offset;
        VisitStep(words, i, w, next, visited, handler);
        w := WithoutLowest(w);
        visited := visited + [curr];
        next := curr + 1;
        if !handler(visited) {
          return visited, false;
        }
      }
      NothingRemains(words, i, next, visited);
      finished := true;
    }
  }

  lemma NothingWithinZero(w: Word)
    ensures BitsWithin(w, 0) <==> w == 0
    ensures BitsWithin(0, w)
  {
    SameBits(w, 0);
    forall j: nat
      ensures !Bit(0, j)
    {
      ZeroHasNoBits(j);
    }
  }

  /** Exactly the members below the bound have been visited, in ascending order. */
  ghost predicate VisitedBefore(words: seq<Word>, bound: nat, visited: seq<nat>) {
    Ascending(visited) && forall x: nat :: x in visited <==> x in Members(words) && x < bound
  }

  ghost predicate AllowedBy(handler: seq<nat> -> bool, visited: seq<nat>) {
    forall n: nat :: 0 < n <= |visited| ==> handler(visited[..n])
  }

  lemma AllowedMore(handler: seq<nat> -> bool, visited: seq<nat>, x: nat)
    requires AllowedBy(handler, visited)
    ensures (visited + [x])[..|visited|] == visited
    ensures handler(visited + [x]) ==> AllowedBy(handler, visited + [x])
  {
    var longer := visited + [x];
    assert longer[..|longer|] == longer;
    assert forall n: nat :: n <= |visited| ==> longer[..n] == visited[..n];
  }

  /** Of the bits of the word, w still has those from position next on. */
  ghost predicate Remaining(w: Word, word: Word, next: nat) {
    forall j: nat :: Bit(w, j) <==> Bit(word, j) && j >= next
  }

  lemma AllRemains(word: Word)
    ensures Remaining(word, word, 0)
  {
  }

  lemma ClearLowestKeeps(w: Word, word: Word, next: nat)
    requires w != 0 && Remaining(w, word, next)
    ensures Remaining(WithoutLowest(w), word, CountrZero(w) + 1)
    ensures CountrZero(w) < 64
  {
    hide WithoutLowest;
    LowestOne(w, 0);
    forall j: nat
      ensures Bit(WithoutLowest(w), j) <==> Bit(word, j) && j >= CountrZero(w) + 1
    {
      LowestOne(w, j);
      ClearLowest(w, j);
    }
  }

  /** The lowest remaining bit is the next member. */
  lemma NextElement(words: seq<Word>, i: nat, w: Word, next: nat, visited: seq<nat>)
    requires i < |words| && w != 0 && BITS * i <= next <= BITS * (i + 1)
    requires Remaining(w, words[i], next - BITS * i) && VisitedBefore(words, next, visited)
    ensures BITS * i + CountrZero(w) >= next
    ensures VisitedBefore(words, BITS * i + CountrZero(w) + 1, visited + [BITS * i + CountrZero(w)])
  {
    var curr := BITS * i + CountrZero(w);
    LowestOne(w, 0);
    HoldsAt(words, i, CountrZero(w));
    forall m: nat | m < |visited|
      ensures visited[m] < curr
    {
      assert visited[m] in visited;
    }
    forall x: nat
      ensures x in visited + [curr] <==> x in Members(words) && x < curr + 1
    {
      if next <= x < curr && x in Members(words) {
        MembersHold(words, x);
        assert x / BITS == i;
        LowestOne(w, x % BITS);
      }
    }
  }

  lemma VisitStep(words: seq<Word>, i: nat, w: Word, next: nat, visited: seq<nat>, handler: seq<nat> -> bool)
    requires i < |words| && w != 0 && BITS * i <= next <= BITS * (i + 1)
    requires Remaining(w, words[i], next - BITS * i) && VisitedBefore(words, next, visited) && AllowedBy(handler, visited)
    ensures var curr, longer := BITS * i + CountrZero(w), visited + [BITS * i + CountrZero(w)];
            && next <= curr < BITS * (i + 1) && VisitedBefore(words, curr + 1, longer)
            && Remaining(WithoutLowest(w), words[i], curr + 1 - BITS * i)
            && longer[..|longer| - 1] == visited && (handler(longer) ==> AllowedBy(handler, longer))
  {
    hide VisitedBefore, AllowedBy, Remaining, WithoutLowest, CountrZero, Half, Members, Ascending;
    NextElement(words, i, w, next, visited);
    ClearLowestKeeps(w, words[i], next - BITS * i);
    AllowedMore(handler, visited, BITS * i + CountrZero(w));
  }

  lemma NothingRemains(words: seq<Word>, i: nat, next: nat, visited: seq<nat>)
    requires i < |words| && BITS * i <= next <= BITS * (i + 1)
    requires Remaining(0, words[i], next - BITS * i) && VisitedBefore(words, next, visited)
    ensures VisitedBefore(words, BITS * (i + 1), visited)
  {
    forall x: nat | next <= x < BITS * (i + 1)
      ensures x !in Members(words)
    {
      MembersHold(words, x);
      ZeroHasNoBits(x % BITS);
      assert x / BITS == i;
    }
  }
}
