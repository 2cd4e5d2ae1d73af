/** Packing predicate bytes into 32-byte storage keys, and back. */
module PredicateBytes {
  import opened Bytes

  const END_BYTE: byte := 0xff
  const WORD: nat := 32

  datatype Unpacked = Unpacked(bytes: seq<byte>) | AllZero | InvalidPadding | InvalidDelimiter

  function Zeros(n: nat): (z: seq<byte>)
    ensures |z| == n && forall i :: 0 <= i < n ==> z[i] == 0
  {
    seq(n, _ => 0)
  }

  /** The next multiple of the word size. */
  function Padded(n: nat): (r: nat)
    ensures n <= r < n + WORD && r % WORD == 0
  {
    (n + 31) / 32 * 32
  }

  function RightPad(b: seq<byte>, n: nat): seq<byte> {
    if n <= |b| then b else b + Zeros(n - |b|)
  }

  function TrimRight(b: seq<byte>): seq<byte> {
    if b == [] || b[|b| - 1] != 0 then b else TrimRight(b[..|b| - 1])
  }

  function Pack(b: seq<byte>): seq<byte> {
    var delimited := b + [END_BYTE];
    RightPad(delimited, Padded(|delimited|))
  }

  function Unpack(p: seq<byte>): Unpacked {
    var trimmed := TrimRight(p);
    if |trimmed| == 0 then AllZero
    else if Padded(|trimmed|) != |p| then InvalidPadding
    else if trimmed[|trimmed| - 1] != END_BYTE then InvalidDelimiter
    else Unpacked(trimmed[..|trimmed| - 1])
  }

  /** Trimming removes exactly the zeros at the end. */
  lemma {:induction false} TrimSplits(b: seq<byte>)
    ensures var t := TrimRight(b);
            |t| <= |b| && b == t + Zeros(|b| - |t|) && (t != [] ==> t[|t| - 1] != 0)
    decreases |b|
  {
    if b != [] && b[|b| - 1] == 0 {
      TrimSplits(b[..|b| - 1]);
      assert b == b[..|b| - 1] + [0];
      var t := TrimRight(b);
      assert Zeros(|b| - |t|) == Zeros(|b| - 1 - |t|) + [0];
    } else {
      assert b == b + Zeros(0);
    }
  }

  lemma {:induction false} TrimPadded(t: seq<byte>, n: nat)
    requires t != [] && t[|t| - 1] != 0
    ensures TrimRight(t + Zeros(n)) == t
    decreases n
  {
    if n > 0 {
      TrimPadded(t, n - 1);
      assert (t + Zeros(n))[..|t| + n - 1] == t + Zeros(n - 1);
    } else {
      assert t + Zeros(n) == t;
    }
  }

  lemma PaddedForm(b: seq<byte>)
    ensures Pack(b) == b + [END_BYTE] + Zeros(Padded(|b| + 1) - (|b| + 1))
  {
    assert b + [END_BYTE] + Zeros(0) == b + [END_BYTE];
  }

  /** Every message is recovered from its packed form, whose length is a multiple of the word size. */
  lemma UnpackPack(b: seq<byte>)
    ensures Unpack(Pack(b)) == Unpacked(b) && |Pack(b)| % WORD == 0
  {
    var t := b + [END_BYTE];
    PaddedForm(b);
    TrimPadded(t, Padded(|t|) - |t|);
  }

  /** Only packed forms are accepted: with `UnpackPack`, packing is a bijection onto the valid encodings. */
  lemma PackUnpack(p: seq<byte>, x: seq<byte>)
    requires Unpack(p) == Unpacked(x)
    ensures p == Pack(x)
  {
    var t := TrimRight(p);
    TrimSplits(p);
    PaddedForm(x);
    assert t == x + [END_BYTE];
  }

  /** The packed form: the message, the byte 0xff, and as many zeros as fill up the last 32 bytes. */
  lemma PackLayout(b: seq<byte>)
    ensures var p := Pack(b);
            && |p| % 32 == 0 && |b| < |p| <= |b| + 32 && p[..|b|] == b && p[|b|] == 0xff
            && forall i :: |b| < i < |p| ==> p[i] == 0
  {
    PaddedForm(b);
  }

  /** Why bytes whose last non-zero byte is at `j` are refused, if they are. */
  lemma RefusalsMean(p: seq<byte>, j: nat)
    requires j < |p| && p[j] != 0 && forall i :: j < i < |p| ==> p[i] == 0
    ensures var whole := |p| % 32 == 0 && |p| <= j + 32;
            && (Unpack(p) == InvalidPadding <==> !whole)
            && (Unpack(p) == InvalidDelimiter <==> whole && p[j] != 0xff)
            && (Unpack(p).Unpacked? <==> whole && p[j] == 0xff)
  {
    TrimSplits(p);
    var t := TrimRight(p);
    assert t != [] ==> p[|t| - 1] == t[|t| - 1];
    assert forall i :: |t| <= i < |p| ==> p[i] == 0;
    assert |t| == j + 1;
  }

  /** Only zeros, or nothing, are refused as such. */
  lemma AllZeroMeans(p: seq<byte>)
    ensures Unpack(p) == AllZero <==> forall i :: 0 <= i < |p| ==> p[i] == 0
  {
    TrimSplits(p);
    var t := TrimRight(p);
    if t != [] {
      assert p[|t| - 1] == t[|t| - 1];
    }
  }

  function Joined(words: seq<seq<byte>>): (b: seq<byte>)
    requires forall i :: 0 <= i < |words| ==> |words[i]| == WORD
    ensures |b| == WORD * |words|
  {
    if words == [] then [] else Joined(words[..|words| - 1]) + words[|words| - 1]
  }

  /** Word `i` of the bytes, filled up with zeros. */
  function WordAt(b: seq<byte>, i: nat): (w: seq<byte>)
    requires i * WORD < |b|
    ensures |w| == WORD
  {
    var rest := b[i * WORD..];
    if |rest| >= WORD then rest[..WORD] else rest + Zeros(WORD - |rest|)
  }

  function Words(b: seq<byte>): (w: seq<seq<byte>>)
    ensures |w| == (|b| + 31) / 32
    ensures forall i :: 0 <= i < |w| ==> i * WORD < |b| && w[i] == WordAt(b, i)
  {
    seq((|b| + 31) / 32, i requires 0 <= i < (|b| + 31) / 32 => WordAt(b, i))
  }

  /** Copies each hash into its place in one buffer. */
  method HashSliceToBytes(hashes: seq<seq<byte>>) returns (b: seq<byte>)
    requires forall i :: 0 <= i < |hashes| ==> |hashes[i]| == WORD
    ensures b == Joined(hashes)
  {
    var buffer := new byte[WORD * |hashes|](_ => 0);
    for i := 0 to |hashes|
      invariant buffer[..i * WORD] == Joined(hashes[..i])
    {
      assert hashes[..i + 1][..i] == hashes[..i];
      for k := 0 to WORD
        invariant buffer[..i * WORD + k] == Joined(hashes[..i]) + hashes[i][..k]
      {
        buffer[i * WORD + k] := hashes[i][k];
        assert buffer[..i * WORD + k + 1] == buffer[..i * WORD + k] + [hashes[i][k]];
        assert hashes[i][..k + 1] == hashes[i][..k] + [hashes[i][k]];
      }
      assert hashes[i][..WORD] == hashes[i];
    }
    assert hashes[..|hashes|] == hashes;
    b := buffer[..];
  }

  /** Copies what is there of word `i` into a zeroed array. */
  method CopyWord(b: seq<byte>, i: nat) returns (w: seq<byte>)
    requires i * WORD < |b|
    ensures w == WordAt(b, i)
  {
    var word := new byte[WORD](_ => 0);
    var start, k := i * WORD, 0;
    while k < WORD && start + k < |b|
      invariant 0 <= k <= WORD && start + k <= |b|
      invariant forall j :: 0 <= j < k ==> word[j] == b[start + j]
      invariant forall j :: k <= j < WORD ==> word[j] == 0
    {
      word[k] := b[start + k];
      k := k + 1;
    }
    w := word[..];
  }

  /** Cuts the bytes into words, the last one filled up with zeros. */
  method BytesToHashSlice(b: seq<byte>) returns (hashes: seq<seq<byte>>)
    ensures hashes == Words(b)
  {
    hashes := [];
    for i := 0 to (|b| + 31) / 32
      invariant |hashes| == i && forall j :: 0 <= j < i ==> hashes[j] == WordAt(b, j)
    {
      var word := CopyWord(b, i);
      hashes := hashes + [word];
    }
  }

  /** Word `i` lies at byte `32 * i`. */
  lemma {:induction false} JoinedAt(words: seq<seq<byte>>, i: nat)
    requires i < |words| && forall k :: 0 <= k < |words| ==> |words[k]| == 32
    ensures Joined(words)[32 * i..32 * i + 32] == words[i]
    decreases |words|
  {
    var n := |words| - 1;
    var front := Joined(words[..n]);
    if i < n {
      JoinedAt(words[..n], i);
      assert Joined(words)[32 * i..32 * i + 32] == front[32 * i..32 * i + 32];
    }
  }

  /** Words that are joined and cut again stay the same. */
  lemma {:induction false} WordsOfJoined(words: seq<seq<byte>>)
    requires forall i :: 0 <= i < |words| ==> |words[i]| == WORD
    ensures Words(Joined(words)) == words
    decreases |words|
  {
    if words != [] {
      var n := |words| - 1;
      WordsOfJoined(words[..n]);
      var b, all := Joined(words[..n]), Joined(words);
      forall i | 0 <= i < |words|
        ensures WordAt(all, i) == words[i]
      {
        if i < n {
          assert Words(b)[i] == WordAt(b, i) == words[..n][i];
          assert WordAt(all, i) == WordAt(b, i);
        } else {
          assert all[i * WORD..] == words[n];
        }
      }
    }
  }

  /** Bytes of whole words are cut and joined to themselves. */
  lemma {:induction false} JoinedWords(b: seq<byte>)
    requires |b| % WORD == 0
    ensures Joined(Words(b)) == b
    decreases |b|
  {
    if b != [] {
      var n := |b| - WORD;
      JoinedWords(b[..n]);
      var words := Words(b);
      var last := |words| - 1;
      FrontWords(b);
      assert words[last] == b[n..];
      assert b == b[..n] + b[n..];
    }
  }

  lemma FrontWords(b: seq<byte>)
    requires |b| % WORD == 0 && b != []
    ensures Words(b)[..|Words(b)| - 1] == Words(b[..|b| - WORD])
  {
    var n := |b| - WORD;
    forall i | 0 <= i < |Words(b)| - 1
      ensures WordAt(b, i) == WordAt(b[..n], i)
    {
      assert b[i * WORD..][..WORD] == b[..n][i * WORD..][..WORD];
    }
  }

  /** Cutting and joining any bytes fills them up with zeros to whole words. */
  lemma CutAndJoined(b: seq<byte>)
    ensures var j := Joined(Words(b));
            && |j| % 32 == 0 && |b| <= |j| < |b| + 32 && j[..|b|] == b
            && forall i :: |b| <= i < |j| ==> j[i] == 0
  {
    hide Joined;
    var padded := RightPad(b, Padded(|b|));
    forall i | 0 <= i < |Words(b)|
      ensures WordAt(b, i) == WordAt(padded, i)
    {
    }
    assert Words(b) == Words(padded);
    JoinedWords(padded);
  }

  type Address = nat

  datatype AccessTuple = AccessTuple(address: Address, keys: seq<seq<byte>>)

  predicate WordKeys(list: seq<AccessTuple>) {
    forall i :: 0 <= i < |list| ==> forall j :: 0 <= j < |list[i].keys| ==> |list[i].keys[j]| == WORD
  }

  /** The predicates listed for an address, in list order. */
  function PredicatesOf(list: seq<AccessTuple>, a: Address): seq<seq<byte>>
    requires WordKeys(list)
  {
    if list == [] then [] else
      var last := list[|list| - 1];
      PredicatesOf(list[..|list| - 1], a) + if last.address == a then [Joined(last.keys)] else []
  }

  /** Collects the predicates of every address that some precompile checks. */
  method PreparePredicateStorageSlots(predicaters: set<Address>, list: seq<AccessTuple>)
    returns (slots: map<Address, seq<seq<byte>>>)
    requires WordKeys(list)
    ensures forall a :: a in slots <==> a in predicaters && PredicatesOf(list, a) != []
    ensures forall a :: a in slots ==> slots[a] == PredicatesOf(list, a)
  {
    slots := map[];
    for i := 0 to |list|
      invariant forall a :: a in slots <==> a in predicaters && PredicatesOf(list[..i], a) != []
      invariant forall a :: a in slots ==> slots[a] == PredicatesOf(list[..i], a)
    {
      assert list[..i + 1][..i] == list[..i];
      var el := list[i];
      if el.address in predicaters {
        var packed := HashSliceToBytes(el.keys);
        var before := if el.address in slots then slots[el.address] else [];
        slots := slots[el.address := before + [packed]];
      }
    }
    assert list[..|list|] == list;
  }

  /** A predicate attached to a transaction comes out of the prepared slots as it went in, behind the predicates that
      the list already held for its address. */
  lemma AttachedPredicate(list: seq<AccessTuple>, a: Address, x: seq<byte>)
    requires WordKeys(list)
    ensures var attached := list + [AccessTuple(a, Words(Pack(x)))];
            && WordKeys(attached)
            && PredicatesOf(attached, a) == PredicatesOf(list, a) + [Pack(x)]
            && Unpack(PredicatesOf(attached, a)[|PredicatesOf(list, a)|]) == Unpacked(x)
            && forall b :: b != a ==> PredicatesOf(attached, b) == PredicatesOf(list, b)
  {
    hide Pack, Words, Unpack;
    var attached := list + [AccessTuple(a, Words(Pack(x)))];
    UnpackPack(x);
    JoinedWords(Pack(x));
    assert attached[..|list|] == list;
  }
}
