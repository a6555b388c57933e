/**
 * The binary plot frame (encode_plot_frame_binary in linien-gateway/app/stream.py) and the
 * decoder that reads it (linien-gateway/bench/smoke_binary_ws.py). A float32 is its bit pattern.
 * JSON is not modelled: a frame's header bytes are given, with a parser that reads them back.
 */
module PlotFrameCodec {
  import opened Common

  type Byte = b: int | 0 <= b < 256
  type Word = w: int | 0 <= w < 0x1_0000_0000

  /** What Python's float("nan") becomes as a float32. */
  const NAN: Word := 0x7FC0_0000

  // ---------------------------------------------------------------------------
  // Words and bytes
  // ---------------------------------------------------------------------------

  function Joined(b0: int, b1: int, b2: int, b3: int): int {
    b0 + 256 * b1 + 65536 * b2 + 16777216 * b3
  }

  function LittleEndian(w: Word): (b: seq<Byte>)
    ensures |b| == 4
  {
    [w % 256, w / 256 % 256, w / 65536 % 256, w / 16777216]
  }

  function FromLittleEndian(b: seq<Byte>): Word
    requires |b| == 4
  {
    Joined(b[0], b[1], b[2], b[3])
  }

  function BigEndian(w: Word): (b: seq<Byte>)
    ensures |b| == 4
  {
    [w / 16777216, w / 65536 % 256, w / 256 % 256, w % 256]
  }

  function FromBigEndian(b: seq<Byte>): Word
    requires |b| == 4
  {
    Joined(b[3], b[2], b[1], b[0])
  }

  lemma FourBytesRoundTrip(w: Word)
    ensures FromLittleEndian(LittleEndian(w)) == w && FromBigEndian(BigEndian(w)) == w
  {
    assert w / 256 / 256 == w / 65536 && w / 65536 / 256 == w / 16777216;
  }

  function ToBytes(words: seq<Word>): (b: seq<Byte>)
    ensures |b| == 4 * |words|
  {
    if words == [] then [] else ToBytes(words[..|words| - 1]) + LittleEndian(words[|words| - 1])
  }

  function FromBytes(b: seq<Byte>): (words: seq<Word>)
    requires |b| % 4 == 0
    ensures |words| == |b| / 4
  {
    if b == [] then [] else FromBytes(b[..|b| - 4]) + [FromLittleEndian(b[|b| - 4..])]
  }

  lemma {:induction false} BytesRoundTrip(words: seq<Word>)
    ensures FromBytes(ToBytes(words)) == words
    decreases |words|
  {
    hide LittleEndian, FromLittleEndian;
    if words != [] {
      var earlier, w := words[..|words| - 1], words[|words| - 1];
      BytesRoundTrip(earlier);
      FourBytesRoundTrip(w);
      OneMoreWord(ToBytes(earlier), LittleEndian(w));
      assert words == earlier + [w];
    }
  }

  lemma OneMoreWord(b: seq<Byte>, last: seq<Byte>)
    requires |b| % 4 == 0 && |last| == 4
    ensures FromBytes(b + last) == FromBytes(b) + [FromLittleEndian(last)]
  {
    hide FromLittleEndian;
    var all := b + last;
    assert all[..|all| - 4] == b && all[|all| - 4..] == last;
  }

  // ---------------------------------------------------------------------------
  // Frames
  // ---------------------------------------------------------------------------

  /** A series as it may appear in a frame: an array, a list with gaps, or anything else, which is skipped. */
  datatype Series = Floats(words: seq<Word>) | Listed(values: seq<Option<Word>>) | Unusable

  datatype Entry = Entry(name: string, series: Series)

  datatype Header = Header(names: seq<string>, points: nat, fields: string)

  function Filled(values: seq<Option<Word>>): (words: seq<Word>)
    ensures |words| == |values|
  {
    seq(|values|, k requires 0 <= k < |values| => if values[k].None? then NAN else values[k].value)
  }

  function WordsOf(s: Series): seq<Word>
    requires !s.Unusable?
  {
    if s.Floats? then s.words else Filled(s.values)
  }

  /** Cut, or padded with NaN, to exactly `n` values. */
  function Fit(words: seq<Word>, n: nat): (r: seq<Word>)
    ensures |r| == n
  {
    if |words| >= n then words[..n] else words + seq(n - |words|, k => NAN)
  }

  /** The usable series, in order. */
  function Usable(entries: seq<Entry>): seq<Entry> {
    if entries == [] then []
    else
      var earlier, last := Usable(entries[..|entries| - 1]), entries[|entries| - 1];
      if last.series.Unusable? then earlier else earlier + [last]
  }

  function Names(usable: seq<Entry>): seq<string> {
    seq(|usable|, k requires 0 <= k < |usable| => usable[k].name)
  }

  predicate AllUsable(entries: seq<Entry>) {
    forall k :: 0 <= k < |entries| ==> !entries[k].series.Unusable?
  }

  /** The length of the first series that has one. */
  function Points(usable: seq<Entry>): nat
    requires AllUsable(usable)
  {
    if usable == [] then 0
    else
      var earlier := Points(usable[..|usable| - 1]);
      if earlier != 0 then earlier else |WordsOf(usable[|usable| - 1].series)|
  }

  /** What every reader of the frame is meant to see. */
  function Intended(usable: seq<Entry>): seq<seq<Word>>
    requires AllUsable(usable)
  {
    var n := Points(usable);
    seq(|usable|, k requires 0 <= k < |usable| => Fit(WordsOf(usable[k].series), n))
  }

  /** The arrays the encoder ends up with: while no length is known yet, a series is kept as it is. */
  function Arrays(usable: seq<Entry>): (a: seq<seq<Word>>)
    requires AllUsable(usable)
    ensures |a| == |usable|
  {
    if usable == [] then []
    else
      var earlier := usable[..|usable| - 1];
      var n, words := Points(earlier), WordsOf(usable[|usable| - 1].series);
      Arrays(earlier) + [if n == 0 then words else Fit(words, n)]
  }

  // ---------------------------------------------------------------------------
  // Encoder
  // ---------------------------------------------------------------------------

  /** Slice assignment on a bytearray: bounds are clamped and the array grows or shrinks to fit. */
  function Assign(out: seq<Byte>, start: nat, stop: nat, data: seq<Byte>): seq<Byte>
    requires start <= stop
  {
    var lo, hi := MinInt(start, |out|), MinInt(stop, |out|);
    out[..lo] + data + out[hi..]
  }

  function Pad(headerLength: nat): nat {
    (4 - (8 + headerLength) % 4) % 4
  }

  function DataOffset(headerLength: nat): nat {
    8 + headerLength + Pad(headerLength)
  }

  function Zeros(n: nat): (z: seq<Byte>)
    ensures |z| == n && forall k :: 0 <= k < n ==> z[k] == 0
  {
    seq(n, k => 0)
  }

  /** Bytes taken by `k` series of `n` values. */
  function Span(k: nat, n: nat): nat {
    k * n * 4
  }

  lemma SlotSizes(k: nat, n: nat)
    ensures Span(0, n) == 0
    ensures k > 0 ==> Span(k, n) == Span(k - 1, n) + n * 4
  {
    if k > 0 {
      assert k * n == (k - 1) * n + n;
    }
  }

  const MAGIC: seq<Byte> := [0x50, 0x4C, 0x4F, 0x54]

  function Preamble(header: seq<Byte>): (p: seq<Byte>)
    requires |header| < 0x1_0000_0000
    ensures |p| == DataOffset(|header|)
  {
    MAGIC + BigEndian(|header|) + header + Zeros(Pad(|header|))
  }

  /** The buffer after the first `i` series have been stored, one slot each. */
  function Stored(out: seq<Byte>, offset: nat, n: nat, arrays: seq<seq<Word>>, i: nat): seq<Byte>
    requires i <= |arrays|
  {
    if i == 0 then out
    else
      var slot := offset + Span(i - 1, n);
      Assign(Stored(out, offset, n, arrays, i - 1), slot, slot + n * 4, ToBytes(arrays[i - 1]))
  }

  function Encoded(usable: seq<Entry>, header: seq<Byte>): seq<Byte>
    requires AllUsable(usable) && |header| < 0x1_0000_0000
  {
    var n, arrays := Points(usable), Arrays(usable);
    Stored(Preamble(header) + Zeros(Span(|arrays|, n)), DataOffset(|header|), n, arrays, |arrays|)
  }

  lemma {:induction false} UsableIsUsable(entries: seq<Entry>)
    ensures AllUsable(Usable(entries))
    decreases |entries|
  {
    if entries != [] {
      UsableIsUsable(entries[..|entries| - 1]);
    }
  }

  lemma OneMoreSeries(now: seq<Entry>, e: Entry)
    requires AllUsable(now) && !e.series.Unusable?
    ensures var next, words := now + [e], WordsOf(e.series);
            && AllUsable(next) && Names(next) == Names(now) + [e.name]
            && Points(next) == (if Points(now) != 0 then Points(now) else |words|)
            && Arrays(next) == Arrays(now) + [if Points(now) == 0 then words else Fit(words, Points(now))]
  {
    var next := now + [e];
    assert next[..|next| - 1] == now;
  }

  method CollectSeries(entries: seq<Entry>) returns (names: seq<string>, arrays: seq<seq<Word>>, n: nat)
    ensures AllUsable(Usable(entries))
    ensures names == Names(Usable(entries)) && n == Points(Usable(entries)) && arrays == Arrays(Usable(entries))
  {
    hide Points, Arrays, Names, WordsOf;
    UsableIsUsable(entries);
    names, arrays, n := [], [], 0;
    NoSeries();
    for k := 0 to |entries|
      invariant AllUsable(Usable(entries[..k]))
      invariant names == Names(Usable(entries[..k])) && n == Points(Usable(entries[..k]))
      invariant arrays == Arrays(Usable(entries[..k]))
    {
      assert entries[..k + 1][..k] == entries[..k];
      if !entries[k].series.Unusable? {
        OneMoreSeries(Usable(entries[..k]), entries[k]);
        var arr := WordsOf(entries[k].series);
        ghost var fitted := Fit(arr, n);
        if n == 0 {
          n := |arr|;
        } else if |arr| != n {
          arr := if |arr| > n then arr[..n] else arr + seq(n - |arr|, k => NAN);
        }
        assert Points(Usable(entries[..k])) != 0 ==> arr == fitted;
        names, arrays := names + [entries[k].name], arrays + [arr];
      }
    }
    assert entries[..|entries|] == entries;
  }

  lemma NoSeries()
    ensures Names([]) == [] && Points([]) == 0 && Arrays([]) == []
  {
  }

  lemma AssignInside(before: seq<Byte>, middle: seq<Byte>, after: seq<Byte>, data: seq<Byte>)
    requires |data| == |middle|
    ensures Assign(before + middle + after, |before|, |before| + |middle|, data) == before + data + after
  {
  }

  /** Filling in the three preamble fields of a zeroed buffer. */
  lemma PreambleFilledIn(header: seq<Byte>, rest: nat)
    requires |header| < 0x1_0000_0000
    ensures var o1 := Assign(Zeros(DataOffset(|header|) + rest), 0, 4, MAGIC);
            var o2 := Assign(o1, 4, 8, BigEndian(|header|));
            Assign(o2, 8, 8 + |header|, header) == Preamble(header) + Zeros(rest)
  {
    hide BigEndian;
    var h, tail := |header|, Zeros(Pad(|header|)) + Zeros(rest);
    assert Zeros(DataOffset(h) + rest) == [] + Zeros(4) + (Zeros(4) + Zeros(h) + tail);
    AssignInside([], Zeros(4), Zeros(4) + Zeros(h) + tail, MAGIC);
    assert [] + MAGIC + (Zeros(4) + Zeros(h) + tail) == MAGIC + Zeros(4) + (Zeros(h) + tail);
    AssignInside(MAGIC, Zeros(4), Zeros(h) + tail, BigEndian(h));
    assert MAGIC + BigEndian(h) + (Zeros(h) + tail) == (MAGIC + BigEndian(h)) + Zeros(h) + tail;
    AssignInside(MAGIC + BigEndian(h), Zeros(h), tail, header);
    assert MAGIC + BigEndian(h) + header + tail == Preamble(header) + Zeros(rest);
  }

  /** `header`: the JSON header for these names and this length, as bytes. */
  method EncodeFrame(entries: seq<Entry>, header: seq<Byte>) returns (out: seq<Byte>)
    requires |header| < 0x1_0000_0000
    ensures AllUsable(Usable(entries)) && out == Encoded(Usable(entries), header)
  {
    hide Points, Arrays, Assign, Preamble, MAGIC, BigEndian, Usable;
    var names, arrays, n := CollectSeries(entries);
    var headerLength := |header|;
    var pad := (4 - (8 + headerLength) % 4) % 4;
    var dataOffset := 8 + headerLength + pad;
    PreambleFilledIn(header, Span(|arrays|, n));
    out := Zeros(dataOffset + Span(|arrays|, n));
    out := Assign(out, 0, 4, MAGIC);
    out := Assign(out, 4, 8, BigEndian(headerLength));
    out := Assign(out, 8, 8 + headerLength, header);
    ghost var blank := out;
    for i := 0 to |arrays|
      invariant out == Stored(blank, dataOffset, n, arrays, i)
    {
      var slot := dataOffset + Span(i, n);
      out := Assign(out, slot, slot + n * 4, ToBytes(arrays[i]));
    }
  }

  // ---------------------------------------------------------------------------
  // Decoder
  // ---------------------------------------------------------------------------

  datatype DecodeError = TooShort | BadMagic | BadHeader | DataSizeMismatch

  datatype Decoded = Decoded(header: Header, series: seq<seq<Word>>)

  /** `parse`: the JSON reader. */
  function Decode(msg: seq<Byte>, parse: seq<Byte> -> Option<Header>): Result<Decoded, DecodeError> {
    if |msg| < 8 then Err(TooShort)
    else if msg[..4] != MAGIC then Err(BadMagic)
    else
      var headerLength := FromBigEndian(msg[4..8]);
      if 8 + headerLength > |msg| then Err(BadHeader)
      else
        match parse(msg[8..8 + headerLength])
        case None => Err(BadHeader)
        case Some(header) =>
          var offset, k := DataOffset(headerLength), |header.names|;
          if |msg| - offset != Span(k, header.points) then Err(DataSizeMismatch)
          else Ok(Decoded(header, Slots(msg[offset..], k, header.points)))
  }

  function Slots(data: seq<Byte>, k: nat, n: nat): seq<seq<Word>>
    requires |data| == Span(k, n)
  {
    SlotSizes(k, n);
    if k == 0 then []
    else
      Slots(data[..Span(k - 1, n)], k - 1, n) + [FromBytes(data[Span(k - 1, n)..])]
  }


  // ---------------------------------------------------------------------------
  // Round trip, and exactly when it fails
  // ---------------------------------------------------------------------------

  /** The guard that fails: the first series is empty and some later one is not. */
  predicate LeadingGap(usable: seq<Entry>)
    requires AllUsable(usable)
  {
    usable != [] && |WordsOf(usable[0].series)| == 0 && Points(usable) != 0
  }

  lemma {:induction false} PointsOfPrefix(usable: seq<Entry>)
    requires AllUsable(usable) && usable != [] && |WordsOf(usable[0].series)| != 0
    ensures Points(usable) == |WordsOf(usable[0].series)|
    decreases |usable|
  {
    if |usable| > 1 {
      PointsOfPrefix(usable[..|usable| - 1]);
    } else {
      assert usable[..0] == [];
    }
  }

  lemma {:induction false} NoPointsMeansEmpty(usable: seq<Entry>)
    requires AllUsable(usable) && Points(usable) == 0
    ensures forall k :: 0 <= k < |usable| ==> |WordsOf(usable[k].series)| == 0
    decreases |usable|
  {
    if usable != [] {
      NoPointsMeansEmpty(usable[..|usable| - 1]);
      assert forall k :: 0 <= k < |usable| - 1 ==> usable[k] == usable[..|usable| - 1][k];
    }
  }

  /** Without a leading gap the encoder's arrays are the intended ones. */
  lemma {:induction false} ArraysAsIntended(usable: seq<Entry>)
    requires AllUsable(usable) && !LeadingGap(usable)
    ensures Arrays(usable) == Intended(usable)
    decreases |usable|
  {
    if usable != [] {
      var earlier := usable[..|usable| - 1];
      var words := WordsOf(usable[|usable| - 1].series);
      if Points(usable) == 0 {
        NoPointsMeansEmpty(usable);
        ArraysAsIntended(earlier);
      } else if |usable| == 1 {
        assert earlier == [];
        assert Fit(words, |words|) == words;
      } else {
        PointsOfPrefix(usable);
        assert earlier[0] == usable[0];
        PointsOfPrefix(earlier);
        ArraysAsIntended(earlier);
      }
      assert Intended(usable) == Intended(earlier) + [Fit(words, Points(usable))];
    }
  }

  /** The series data of a well-formed frame. */
  function Flat(arrays: seq<seq<Word>>): seq<Byte> {
    if arrays == [] then [] else Flat(arrays[..|arrays| - 1]) + ToBytes(arrays[|arrays| - 1])
  }

  predicate AllOfSize(arrays: seq<seq<Word>>, n: nat) {
    forall k :: 0 <= k < |arrays| ==> |arrays[k]| == n
  }

  lemma {:induction false} FlatSize(arrays: seq<seq<Word>>, n: nat)
    requires AllOfSize(arrays, n)
    ensures |Flat(arrays)| == Span(|arrays|, n)
    decreases |arrays|
  {
    hide Span;
    SlotSizes(|arrays|, n);
    if arrays != [] {
      FlatSize(arrays[..|arrays| - 1], n);
    }
  }

  /** Slots of one size never overlap: storing them one after another just concatenates them. */
  lemma {:induction false} StoredIsFlat(preamble: seq<Byte>, n: nat, arrays: seq<seq<Word>>, i: nat)
    requires AllOfSize(arrays, n) && i <= |arrays|
    ensures Stored(preamble + Zeros(Span(|arrays|, n)), |preamble|, n, arrays, i) ==
            preamble + Flat(arrays[..i]) + Zeros(Span(|arrays| - i, n))
    decreases i
  {
    hide ToBytes, Span, Assign;
    var rest := |arrays| - i;
    if i == 0 {
      assert arrays[..0] == [];
      assert preamble + [] == preamble;
    } else {
      StoredIsFlat(preamble, n, arrays, i - 1);
      SlotSizes(rest + 1, n);
      FlatSize(arrays[..i - 1], n);
      assert arrays[..i][..i - 1] == arrays[..i - 1];
      var before := preamble + Flat(arrays[..i - 1]);
      assert Zeros(Span(rest + 1, n)) == Zeros(n * 4) + Zeros(Span(rest, n));
      assert before + Zeros(Span(rest + 1, n)) == before + Zeros(n * 4) + Zeros(Span(rest, n));
      AssignInside(before, Zeros(n * 4), Zeros(Span(rest, n)), ToBytes(arrays[i - 1]));
      assert preamble + Flat(arrays[..i]) == before + ToBytes(arrays[i - 1]);
    }
  }

  lemma {:induction false} SlotsOfFlat(arrays: seq<seq<Word>>, n: nat)
    requires AllOfSize(arrays, n)
    ensures |Flat(arrays)| == Span(|arrays|, n) && Slots(Flat(arrays), |arrays|, n) == arrays
    decreases |arrays|
  {
    hide ToBytes, FromBytes;
    FlatSize(arrays, n);
    if arrays != [] {
      var k := |arrays|;
      var earlier, last := arrays[..k - 1], arrays[k - 1];
      SlotsOfFlat(earlier, n);
      SlotSizes(k, n);
      BytesRoundTrip(last);
      assert Flat(arrays)[..Span(k - 1, n)] == Flat(earlier);
      assert Flat(arrays)[Span(k - 1, n)..] == ToBytes(last);
    }
  }

  lemma DecodePreamble(header: seq<Byte>, data: seq<Byte>, parse: seq<Byte> -> Option<Header>)
    requires |header| < 0x1_0000_0000 && parse(header).Some?
    ensures var h := parse(header).value;
            Decode(Preamble(header) + data, parse) ==
            if |data| != Span(|h.names|, h.points) then Err(DataSizeMismatch)
            else Ok(Decoded(h, Slots(data, |h.names|, h.points)))
  {
    hide BigEndian, FromBigEndian, Slots, Span, Preamble, MAGIC, DataOffset;
    FourBytesRoundTrip(|header|);
    PreambleParts(header, data);
  }

  lemma PreambleParts(header: seq<Byte>, data: seq<Byte>)
    requires |header| < 0x1_0000_0000
    ensures var msg := Preamble(header) + data;
            && |msg| == DataOffset(|header|) + |data| && DataOffset(|header|) >= 8 + |header|
            && msg[..4] == MAGIC && msg[4..8] == BigEndian(|header|) && msg[8..8 + |header|] == header
            && msg[DataOffset(|header|)..] == data
  {
    hide BigEndian;
  }

  lemma {:induction false} FirstArray(usable: seq<Entry>)
    requires AllUsable(usable) && usable != []
    ensures Arrays(usable)[0] == WordsOf(usable[0].series)
    decreases |usable|
  {
    if |usable| > 1 {
      FirstArray(usable[..|usable| - 1]);
    } else {
      assert usable[..0] == [];
    }
  }

  /** Storing an empty first series deletes a slot; whatever follows leaves zeros where that series should be. */
  lemma {:induction false} GapLeavesZeros(preamble: seq<Byte>, n: nat, arrays: seq<seq<Word>>, i: nat)
    requires |arrays| >= 2 && arrays[0] == [] && 1 <= i <= |arrays|
    ensures var out := Stored(preamble + Zeros(Span(|arrays|, n)), |preamble|, n, arrays, i);
            |preamble| + n * 4 <= |out| && out[..|preamble| + n * 4] == preamble + Zeros(n * 4)
    decreases i
  {
    hide ToBytes, Assign, Span;
    var blank := preamble + Zeros(Span(|arrays|, n));
    SlotSizes(i - 1, n);
    if i == 1 {
      assert Stored(blank, |preamble|, n, arrays, 0) == blank;
      assert ToBytes([]) == [];
      SlotDeleted(preamble, n, |arrays|);
    } else {
      GapLeavesZeros(preamble, n, arrays, i - 1);
      SpanAtLeastOne(i - 1, n);
      var before := Stored(blank, |preamble|, n, arrays, i - 1);
      KeepsPrefix(before, |preamble| + n * 4, |preamble| + Span(i - 1, n), n * 4, ToBytes(arrays[i - 1]));
    }
  }

  lemma SpanAtLeastOne(k: nat, n: nat)
    requires k >= 1
    ensures Span(k, n) >= n * 4
  {
    SlotSizes(k, n);
  }

  lemma SlotDeleted(preamble: seq<Byte>, n: nat, k: nat)
    requires k >= 2
    ensures var out := Assign(preamble + Zeros(Span(k, n)), |preamble|, |preamble| + n * 4, []);
            |preamble| + n * 4 <= |out| && out[..|preamble| + n * 4] == preamble + Zeros(n * 4)
  {
    hide Span;
    SlotSizes(k, n);
    SpanAtLeastOne(k - 1, n);
    var blank := preamble + Zeros(Span(k, n));
    assert blank[..|preamble|] == preamble;
    assert blank[|preamble| + n * 4..] == Zeros(Span(k - 1, n));
    assert Assign(blank, |preamble|, |preamble| + n * 4, []) == preamble + Zeros(Span(k - 1, n));
    assert Zeros(Span(k - 1, n))[..n * 4] == Zeros(n * 4);
  }

  lemma KeepsPrefix(out: seq<Byte>, keep: nat, start: nat, width: nat, data: seq<Byte>)
    requires keep <= |out| && keep <= start
    ensures keep <= |Assign(out, start, start + width, data)|
    ensures Assign(out, start, start + width, data)[..keep] == out[..keep]
  {
  }

  lemma {:induction false} FirstSlot(data: seq<Byte>, first: seq<Byte>, k: nat, n: nat)
    requires k >= 1 && |data| == Span(k, n) && |first| == n * 4 && |first| % 4 == 0 && first <= data
    ensures |Slots(data, k, n)| == k && Slots(data, k, n)[0] == FromBytes(first)
    decreases k
  {
    hide FromBytes, Span;
    SlotSizes(k, n);
    SlotSizes(0, n);
    if k == 1 {
      assert data[Span(0, n)..] == data == first;
    } else {
      SpanAtLeastOne(k - 1, n);
      FirstSlot(data[..Span(k - 1, n)], first, k - 1, n);
    }
  }

  lemma {:induction false} ZerosAreZeroWords(n: nat)
    ensures FromBytes(Zeros(n * 4)) == seq(n, k => 0)
    decreases n
  {
    hide FromLittleEndian, Zeros;
    if n > 0 {
      var z := Zeros(n * 4);
      ZerosAreZeroWords(n - 1);
      assert z[..|z| - 4] == Zeros((n - 1) * 4) && z[|z| - 4..] == Zeros(4);
      ZeroWord();
    }
  }

  lemma ZeroWord()
    ensures FromLittleEndian(Zeros(4)) == 0
  {
  }

  lemma ArraysSized(usable: seq<Entry>)
    requires AllUsable(usable) && !LeadingGap(usable)
    ensures Arrays(usable) == Intended(usable) && AllOfSize(Arrays(usable), Points(usable))
  {
    ArraysAsIntended(usable);
  }

  lemma EncodedIsFlat(usable: seq<Entry>, header: seq<Byte>)
    requires AllUsable(usable) && |header| < 0x1_0000_0000 && !LeadingGap(usable)
    ensures Encoded(usable, header) == Preamble(header) + Flat(Intended(usable))
    ensures AllOfSize(Intended(usable), Points(usable)) && |Intended(usable)| == |usable|
  {
    hide Preamble, Stored, Span, Points, Flat;
    var n, arrays := Points(usable), Arrays(usable);
    ArraysSized(usable);
    StoredIsFlat(Preamble(header), n, arrays, |arrays|);
    SlotSizes(0, n);
    assert arrays[..|arrays|] == arrays;
    assert Preamble(header) + Flat(arrays) + Zeros(0) == Preamble(header) + Flat(arrays);
  }

  /**
   * The frame's layout, whenever there is no leading gap: the data start on a multiple of four, the
   * frame is exactly preamble plus 4 bytes per value, and series k fills its own slot and nothing else.
   */
  lemma FrameLayout(usable: seq<Entry>, header: seq<Byte>, k: nat)
    requires AllUsable(usable) && |header| < 0x1_0000_0000 && !LeadingGap(usable) && k < |usable|
    ensures var n, out, offset := Points(usable), Encoded(usable, header), DataOffset(|header|);
            && offset % 4 == 0 && 8 + |header| <= offset < 8 + |header| + 4
            && |out| == offset + 4 * |usable| * n
            && offset + Span(k, n) + n * 4 <= |out|
            && out[offset + Span(k, n)..offset + Span(k, n) + n * 4] == ToBytes(Intended(usable)[k])
  {
    hide Preamble, Encoded, Intended, ToBytes, Span, DataOffset, Points, Flat, LeadingGap;
    var n, arrays := Points(usable), Intended(usable);
    OffsetAligned(|header|);
    SpanIs(|usable|, n);
    EncodedIsFlat(usable, header);
    FlatSize(arrays, n);
    FlatSlot(arrays, n, k);
  }

  lemma OffsetAligned(h: nat)
    ensures DataOffset(h) % 4 == 0 && 8 + h <= DataOffset(h) < 8 + h + 4
  {
  }

  lemma SpanIs(k: nat, n: nat)
    ensures Span(k, n) == 4 * k * n
  {
  }

  lemma {:induction false} FlatSlot(arrays: seq<seq<Word>>, n: nat, k: nat)
    requires AllOfSize(arrays, n) && k < |arrays|
    ensures Span(k, n) + n * 4 <= |Flat(arrays)|
    ensures Flat(arrays)[Span(k, n)..Span(k, n) + n * 4] == ToBytes(arrays[k])
    decreases |arrays|
  {
    hide ToBytes, Span;
    var last := |arrays| - 1;
    FlatSize(arrays[..last], n);
    if k < last {
      FlatSlot(arrays[..last], n, k);
      assert Flat(arrays)[..|Flat(arrays[..last])|] == Flat(arrays[..last]);
    }
  }

  /**
   * Decoding an encoded frame gives back the names in order and every series cut or NaN-padded to
   * the common length, exactly when the frame has no leading gap. With one, the first series comes
   * back as zeros instead of NaN, or the sizes no longer add up.
   */
  lemma RoundTripIffNoLeadingGap(usable: seq<Entry>, header: seq<Byte>, parse: seq<Byte> -> Option<Header>, fields: string)
    requires AllUsable(usable) && |header| < 0x1_0000_0000
    requires parse(header) == Some(Header(Names(usable), Points(usable), fields))
    ensures Decode(Encoded(usable, header), parse) == Ok(Decoded(Header(Names(usable), Points(usable), fields), Intended(usable)))
            <==> !LeadingGap(usable)
  {
    hide Preamble, Encoded, Decode, Slots, Span, Points, Intended, LeadingGap, Names, Flat;
    if LeadingGap(usable) {
      GapBreaks(usable, header, parse, fields);
    } else {
      EncodedIsFlat(usable, header);
      DecodePreamble(header, Flat(Intended(usable)), parse);
      SlotsOfFlat(Intended(usable), Points(usable));
      assert |Names(usable)| == |usable| by {
        NamesAreAll(usable);
      }
    }
  }

  lemma NamesAreAll(usable: seq<Entry>)
    ensures |Names(usable)| == |usable|
  {
  }

  lemma EncodedWithGap(usable: seq<Entry>, header: seq<Byte>)
    requires AllUsable(usable) && |header| < 0x1_0000_0000 && LeadingGap(usable)
    ensures var out, lead := Encoded(usable, header), DataOffset(|header|) + Points(usable) * 4;
            |usable| >= 2 && lead <= |out| && out[..lead] == Preamble(header) + Zeros(Points(usable) * 4)
  {
    hide Preamble, Stored, Span, Arrays, Points, DataOffset;
    FirstArray(usable);
    GapIsLonger(usable);
    GapLeavesZeros(Preamble(header), Points(usable), Arrays(usable), |usable|);
  }

  lemma IntendedFirst(usable: seq<Entry>)
    requires AllUsable(usable) && LeadingGap(usable)
    ensures Intended(usable) != [] && Points(usable) > 0 && |Intended(usable)[0]| == Points(usable) && Intended(usable)[0][0] == NAN
  {
    hide Points;
  }

  lemma DataBehind(out: seq<Byte>, preamble: seq<Byte>, start: seq<Byte>) returns (data: seq<Byte>)
    requires |preamble| + |start| <= |out| && out[..|preamble| + |start|] == preamble + start
    ensures out == preamble + data && start <= data
  {
    data := out[|preamble|..];
    assert out[..|preamble|] == (preamble + start)[..|preamble|] == preamble;
    assert data[..|start|] == (preamble + start)[|preamble|..] == start;
  }

  lemma GapBreaks(usable: seq<Entry>, header: seq<Byte>, parse: seq<Byte> -> Option<Header>, fields: string)
    requires AllUsable(usable) && |header| < 0x1_0000_0000 && LeadingGap(usable)
    requires parse(header) == Some(Header(Names(usable), Points(usable), fields))
    ensures var d := Decode(Encoded(usable, header), parse);
            d == Err(DataSizeMismatch) || (d.Ok? && d.value.series != Intended(usable))
  {
    hide Preamble, Encoded, Slots, Span, Decode, Points, Intended, LeadingGap, Names, DataOffset;
    hide Zeros, FromBytes, ToBytes;
    var n := Points(usable);
    EncodedWithGap(usable, header);
    NamesAreAll(usable);
    var data := DataBehind(Encoded(usable, header), Preamble(header), Zeros(n * 4));
    DecodePreamble(header, data, parse);
    if |data| == Span(|usable|, n) {
      FirstSlot(data, Zeros(n * 4), |usable|, n);
      ZerosAreZeroWords(n);
      IntendedFirst(usable);
    }
  }

  lemma OneSeries(usable: seq<Entry>)
    requires AllUsable(usable) && |usable| == 1
    ensures Points(usable) == |WordsOf(usable[0].series)|
  {
    assert usable == [] + [usable[0]];
    OneMoreSeries([], usable[0]);
  }

  lemma GapIsLonger(usable: seq<Entry>)
    requires AllUsable(usable) && LeadingGap(usable)
    ensures |usable| >= 2
  {
    hide Points, WordsOf;
    if |usable| == 1 {
      OneSeries(usable);
    }
  }

  // ---------------------------------------------------------------------------
  // What the bytes and the gaps mean
  // ---------------------------------------------------------------------------

  /** A float32 that is not a number: every exponent bit set, and some fraction bit. */
  predicate IsNaN(w: Word) {
    w / 0x80_0000 % 256 == 255 && w % 0x80_0000 != 0
  }

  /** A gap inside a list and everything past its end reads back as NaN; every other value is sent as it is. */
  lemma GapsReadAsNaN(values: seq<Option<Word>>, n: nat, k: nat)
    requires k < n
    ensures if k < |values| && values[k].Some? then Fit(Filled(values), n)[k] == values[k].value
            else IsNaN(Fit(Filled(values), n)[k])
  {
    assert IsNaN(NAN);
  }

  /** The positions of the bytes of a word: least significant first in the data, last in the preamble. */
  lemma ByteOrder(b0: Byte, b1: Byte, b2: Byte, b3: Byte)
    ensures LittleEndian(b0 + 0x100 * b1 + 0x1_0000 * b2 + 0x100_0000 * b3) == [b0, b1, b2, b3]
    ensures BigEndian(b0 + 0x100 * b1 + 0x1_0000 * b2 + 0x100_0000 * b3) == [b3, b2, b1, b0]
  {
    hide LittleEndian, BigEndian;
    var w: Word := b0 + 0x100 * b1 + 0x1_0000 * b2 + 0x100_0000 * b3;
    var little, big := LittleEndian(w), BigEndian(w);
    FourBytesRoundTrip(w);
    DigitsAreUnique([little[0], little[1], little[2], little[3]], [b0, b1, b2, b3]);
    DigitsAreUnique([big[3], big[2], big[1], big[0]], [b0, b1, b2, b3]);
  }

  /** A byte in front of a multiple of 256 can be told from it. */
  lemma LowByteIsUnique(a: Byte, high: int, b: Byte, other: int)
    requires a + 256 * high == b + 256 * other
    ensures a == b && high == other
  {
  }

  lemma DigitsAreUnique(a: seq<Byte>, b: seq<Byte>)
    requires |a| == |b| == 4 && Joined(a[0], a[1], a[2], a[3]) == Joined(b[0], b[1], b[2], b[3])
    ensures a == b
  {
    hide Joined;
    NextDigits(a[0], a[1], a[2], a[3]);
    NextDigits(b[0], b[1], b[2], b[3]);
    LowByteIsUnique(a[0], Joined(a[1], a[2], a[3], 0), b[0], Joined(b[1], b[2], b[3], 0));
    NextDigits(a[1], a[2], a[3], 0);
    NextDigits(b[1], b[2], b[3], 0);
    LowByteIsUnique(a[1], Joined(a[2], a[3], 0, 0), b[1], Joined(b[2], b[3], 0, 0));
    NextDigits(a[2], a[3], 0, 0);
    NextDigits(b[2], b[3], 0, 0);
    LowByteIsUnique(a[2], Joined(a[3], 0, 0, 0), b[2], Joined(b[3], 0, 0, 0));
    NextDigits(a[3], 0, 0, 0);
    NextDigits(b[3], 0, 0, 0);
    LowByteIsUnique(a[3], Joined(0, 0, 0, 0), b[3], Joined(0, 0, 0, 0));
  }

  lemma NextDigits(b0: int, b1: int, b2: int, b3: int)
    ensures Joined(b0, b1, b2, b3) == b0 + 256 * Joined(b1, b2, b3, 0)
  {
  }

  /** One whole frame, byte for byte: "PLOT", the length, a header of three bytes, one of padding, then 1.0 and a gap. */
  lemma SampleFrame()
    ensures var usable := [Entry("a", Listed([Some(0x3F80_0000), None]))];
            AllUsable(usable) && Encoded(usable, [1, 2, 3]) ==
              [0x50, 0x4C, 0x4F, 0x54, 0, 0, 0, 3, 1, 2, 3, 0, 0, 0, 0x80, 0x3F, 0, 0, 0xC0, 0x7F]
  {
    var usable := [Entry("a", Listed([Some(0x3F80_0000), None]))];
    hide Points, Arrays, Preamble, ToBytes, Encoded, AllUsable, NAN;
    SampleSeries();
    SampleWords();
    SamplePreamble();
    EncodedPair(usable, [1, 2, 3], [0x3F80_0000, NAN]);
  }

  lemma EncodedPair(usable: seq<Entry>, header: seq<Byte>, words: seq<Word>)
    requires |header| == 3 && AllUsable(usable) && |words| == 2 && Points(usable) == 2 && Arrays(usable) == [words]
    ensures Encoded(usable, header) == Preamble(header) + ToBytes(words)
  {
    hide Points, Arrays, Preamble, ToBytes, Stored, Zeros, AllUsable;
    OneSlot(Preamble(header), words);
    assert Span(1, 2) == 8 && DataOffset(3) == 12;
  }

  lemma SampleSeries()
    ensures var usable := [Entry("a", Listed([Some(0x3F80_0000), None]))];
            AllUsable(usable) && Points(usable) == 2 && Arrays(usable) == [[0x3F80_0000, NAN]]
  {
    var e := Entry("a", Listed([Some(0x3F80_0000), None]));
    OneMoreSeries([], e);
    assert [] + [e] == [e];
    assert Filled(e.series.values) == [0x3F80_0000, NAN];
  }

  /** Storing one series of two values after this preamble. */
  lemma OneSlot(start: seq<Byte>, words: seq<Word>)
    requires |start| == 12 && |words| == 2
    ensures Stored(start + Zeros(8), 12, 2, [words], 1) == start + ToBytes(words)
  {
    hide ToBytes;
    assert Span(0, 2) == 0;
    AssignInside(start, Zeros(8), [], ToBytes(words));
    assert start + Zeros(8) + [] == start + Zeros(8) && start + ToBytes(words) + [] == start + ToBytes(words);
  }

  lemma SampleWords()
    ensures ToBytes([0x3F80_0000, NAN]) == [0, 0, 0x80, 0x3F, 0, 0, 0xC0, 0x7F]
  {
    var words: seq<Word> := [0x3F80_0000, NAN];
    assert words[..1] == [0x3F80_0000] && [0x3F80_0000][..0] == [];
    assert ToBytes([0x3F80_0000]) == LittleEndian(0x3F80_0000);
    ByteOrder(0, 0, 0x80, 0x3F);
    ByteOrder(0, 0, 0xC0, 0x7F);
  }

  lemma SamplePreamble()
    ensures Preamble([1, 2, 3]) == [0x50, 0x4C, 0x4F, 0x54, 0, 0, 0, 3, 1, 2, 3, 0]
  {
    ByteOrder(3, 0, 0, 0);
    assert Zeros(1) == [0];
  }
}
