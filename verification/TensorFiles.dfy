/** A tensor file written one tensor at a time and read back by key: eight bytes of length, a header,
    then the tensors, each on a 64-byte boundary. */
module TensorFiles {
  import opened Wrappers

  type Byte = b: int | 0 <= b < 256
  type Bytes = seq<Byte>


  const MAGIC := "pww-tensors-v1"
  const ALIGN := 64
  const LENGTH_BYTES := 8
  const MAX_HEADER := 67108864

  const DTYPES: set<string> := {"float32", "float16", "bfloat16", "float64", "int64", "int32", "uint8", "bool"}

  /** A tensor as its raw bytes, with what is needed to make sense of them. */
  datatype Tensor = Tensor(dtype: string, shape: seq<int>, raw: Bytes)

  datatype Entry = Entry(key: string, dtype: string, shape: seq<int>, start: int, end: int)

  datatype Header = Header(format: string, meta: map<string, string>, entries: seq<Entry>)

  /** How a header becomes bytes and back; the text format is not modelled. */
  datatype Codec = Codec(encode: Header -> Bytes, decode: Bytes -> Option<Header>)

  ghost predicate CodecOk(codec: Codec) {
    forall h :: codec.decode(codec.encode(h)) == Some(h)
  }

  // --- alignment --------------------------------------------------------------

  /** The next 64-byte boundary at or after the offset. */
  function Align(offset: int): (r: int)
    requires offset >= 0
    ensures r % ALIGN == 0 && offset <= r < offset + ALIGN
  {
    var remainder := offset % ALIGN;
    if remainder == 0 then offset else offset + (ALIGN - remainder)
  }

  function Zeros(n: int): (r: Bytes)
    requires n >= 0
    ensures |r| == n
  {
    seq(n, _ => 0)
  }

  // --- the length prefix ------------------------------------------------------

  function Power256(k: nat): nat {
    if k == 0 then 1 else 256 * Power256(k - 1)
  }

  /** The low byte first. */
  function LittleEndian(n: nat, k: nat): (r: Bytes)
    ensures |r| == k
  {
    if k == 0 then [] else [n % 256] + LittleEndian(n / 256, k - 1)
  }

  function FromLittleEndian(s: Bytes): nat {
    if s == [] then 0 else s[0] + 256 * FromLittleEndian(s[1..])
  }

  lemma {:induction false} LengthReadsBack(n: nat, k: nat)
    ensures n < Power256(k) ==> FromLittleEndian(LittleEndian(n, k)) == n
  {
    if k > 0 {
      LengthReadsBack(n / 256, k - 1);
      assert LittleEndian(n, k)[1..] == LittleEndian(n / 256, k - 1);
    }
  }

  // --- the file ---------------------------------------------------------------

  function Prefix(header: Bytes): Bytes {
    LittleEndian(|header|, LENGTH_BYTES) + header
  }

  function FileOf(header: Bytes, data: Bytes): Bytes {
    Prefix(header) + data
  }

  datatype OpenError = TooShort | ImplausibleLength | BadHeader | WrongFormat

  /** A file, parsed: what lies before its data section, and that section. */
  datatype Opened = Opened(header: Header, before: Bytes, data: Bytes)

  predicate Plausible(length: int) {
    0 < length <= MAX_HEADER
  }

  function Parse(codec: Codec, file: Bytes): Result<Opened, OpenError> {
    if |file| < LENGTH_BYTES then Err(TooShort)
    else
      var length := FromLittleEndian(file[..LENGTH_BYTES]);
      if !Plausible(length) then Err(ImplausibleLength)
      else
        var end := if LENGTH_BYTES + length <= |file| then LENGTH_BYTES + length else |file|;
        var header := codec.decode(file[LENGTH_BYTES..end]);
        if header.None? then Err(BadHeader)
        else if header.value.format != MAGIC then Err(WrongFormat)
        else Ok(Opened(header.value, file[..end], file[end..]))
  }

  /** Opening undoes closing exactly when the header's length is one the reader believes. */
  lemma ParseUndoesFile(codec: Codec, header: Header, data: Bytes)
    requires CodecOk(codec) && header.format == MAGIC && |codec.encode(header)| < Power256(LENGTH_BYTES)
    ensures Parse(codec, FileOf(codec.encode(header), data)) == Ok(Opened(header, Prefix(codec.encode(header)), data))
            <==> 0 < |codec.encode(header)| <= 67108864
    ensures |codec.encode(header)| == 0 || |codec.encode(header)| > 67108864 ==>
            Parse(codec, FileOf(codec.encode(header), data)) == Err(ImplausibleLength)
  {
    var text := codec.encode(header);
    var file := FileOf(text, data);
    LengthReadsBack(|text|, LENGTH_BYTES);
    hide LittleEndian, FromLittleEndian, Power256;
    assert file[..LENGTH_BYTES] == LittleEndian(|text|, LENGTH_BYTES);
    assert file[..LENGTH_BYTES + |text|] == Prefix(text);
    assert file[LENGTH_BYTES..LENGTH_BYTES + |text|] == text && file[LENGTH_BYTES + |text|..] == data;
    assert codec.decode(codec.encode(header)) == Some(header);
  }

  /** Why any other bytes are refused: fewer than eight, then a length that is not believed, then a header, cut
      off where the file ends, that cannot be read, then one of another format. What is accepted is split behind
      the header. */
  lemma ParsesExactly(codec: Codec, file: Bytes, length: nat, header: Option<Header>)
    requires |file| >= 8 ==> length == FromLittleEndian(file[..8])
    requires |file| >= 8 ==> header == codec.decode(file[8..if 8 + length <= |file| then 8 + length else |file|])
    ensures var parsed, believed := Parse(codec, file), 0 < length <= 67108864;
            && (parsed == Err(TooShort) <==> |file| < 8)
            && (parsed == Err(ImplausibleLength) <==> |file| >= 8 && !believed)
            && (parsed == Err(BadHeader) <==> |file| >= 8 && believed && header.None?)
            && (parsed == Err(WrongFormat) <==> |file| >= 8 && believed && header.Some? && header.value.format != "pww-tensors-v1")
            && (parsed.Ok? ==>
                  && header == Some(parsed.value.header) && parsed.value.before + parsed.value.data == file
                  && (8 + length <= |file| ==> |parsed.value.before| == 8 + length))
  {
    hide FromLittleEndian;
  }

  // --- finding tensors --------------------------------------------------------

  function Find(entries: seq<Entry>, key: string): Option<Entry> {
    if entries == [] then None
    else if entries[|entries| - 1].key == key then Some(entries[|entries| - 1])
    else Find(entries[..|entries| - 1], key)
  }

  datatype GetError = NoTensor | BadSeek | Truncated | UnknownDtype | NoBytes

  /** One tensor, read from where its entry says. Nothing can be made of no bytes, whatever the shape. */
  function Get(parsed: Opened, key: string): Result<Tensor, GetError> {
    var entry := Find(parsed.header.entries, key);
    if entry.None? then Err(NoTensor)
    else
      var e, file := entry.value, parsed.before + parsed.data;
      var from, length := |parsed.before| + e.start, e.end - e.start;
      if from < 0 then Err(BadSeek)
      else if length < 0 || (length > 0 && |file| < from + length) then Err(Truncated)
      else if e.dtype !in DTYPES then Err(UnknownDtype)
      else if length == 0 then Err(NoBytes)
      else Ok(Tensor(e.dtype, e.shape, file[from..from + length]))
  }

  // --- what a writer stages -----------------------------------------------------

  /** One tensor that a writer was asked to add, whether or not it did. */
  datatype Attempt = Attempt(key: string, tensor: Tensor)

  datatype Staged = Staged(data: Bytes, entries: seq<Entry>, offset: nat)

  function EntryAt(a: Attempt, start: int): Entry {
    Entry(a.key, a.tensor.dtype, a.tensor.shape, start, start + |a.tensor.raw|)
  }

  /** A tensor goes on the next boundary. One whose dtype has no name is staged and then refused: its
      bytes stay behind, and the offset no longer says where the data ends. */
  function Stage(s: Staged, a: Attempt): Staged {
    if Find(s.entries, a.key).Some? then s
    else
      var start := Align(s.offset);
      var data := s.data + Zeros(start - s.offset) + a.tensor.raw;
      if a.tensor.dtype !in DTYPES then Staged(data, s.entries, start)
      else Staged(data, s.entries + [EntryAt(a, start)], start + |a.tensor.raw|)
  }

  function After(attempts: seq<Attempt>): Staged {
    if attempts == [] then Staged([], [], 0)
    else Stage(After(attempts[..|attempts| - 1]), attempts[|attempts| - 1])
  }

  /** Attempt j named a new key, */
  predicate NewKey(attempts: seq<Attempt>, j: nat) {
    j < |attempts| && Find(After(attempts[..j]).entries, attempts[j].key).None?
  }

  /** and was kept, */
  predicate Kept(attempts: seq<Attempt>, j: nat) {
    NewKey(attempts, j) && attempts[j].tensor.dtype in DTYPES
  }

  /** or left its bytes behind. */
  predicate Refused(attempts: seq<Attempt>, j: nat) {
    NewKey(attempts, j) && attempts[j].tensor.dtype !in DTYPES
  }

  /** How far the data has run ahead of the offset. */
  function Slip(attempts: seq<Attempt>): int {
    |After(attempts).data| - After(attempts).offset
  }

  /** Where attempt j is recorded to start. */
  function StartOf(attempts: seq<Attempt>, j: nat): (r: int)
    requires j < |attempts|
    ensures r % ALIGN == 0
  {
    Align(After(attempts[..j]).offset)
  }

  /** Attempt j is recorded where the offset says, and its bytes are as much further on as the data had
      run ahead. */
  ghost predicate Recorded(s: Staged, attempts: seq<Attempt>, j: nat)
    requires j < |attempts|
  {
    var start, slip, raw := StartOf(attempts, j), Slip(attempts[..j]), attempts[j].tensor.raw;
    && Find(s.entries, attempts[j].key) == Some(EntryAt(attempts[j], start))
    && 0 <= slip && 0 <= start && start + |raw| <= s.offset && start + slip + |raw| <= |s.data|
    && s.data[start + slip..start + slip + |raw|] == raw
  }

  lemma FirstOf(attempts: seq<Attempt>, n: nat)
    requires 0 < n <= |attempts|
    ensures After(attempts[..n]) == Stage(After(attempts[..n - 1]), attempts[n - 1])
  {
    assert attempts[..n][..n - 1] == attempts[..n - 1];
  }

  lemma StageGrows(s: Staged, a: Attempt)
    ensures var s' := Stage(s, a);
            && |s.data| <= |s'.data| && s'.data[..|s.data|] == s.data && s.offset <= s'.offset
            && |s'.data| - s'.offset == |s.data| - s.offset
                 + (if Find(s.entries, a.key).None? && a.tensor.dtype !in DTYPES then |a.tensor.raw| else 0)
  {
  }

  lemma StageKeeps(s: Staged, a: Attempt, attempts: seq<Attempt>, j: nat)
    requires j < |attempts| && Recorded(s, attempts, j)
    ensures Recorded(Stage(s, a), attempts, j)
  {
    StageGrows(s, a);
    var s' := Stage(s, a);
    assert Find(s'.entries, attempts[j].key) == Find(s.entries, attempts[j].key) by {
      if s'.entries != s.entries {
        assert s'.entries[..|s.entries|] == s.entries;
      }
    }
    hide Stage, Find;
    var start, slip, raw := StartOf(attempts, j), Slip(attempts[..j]), attempts[j].tensor.raw;
    assert s'.data[start + slip..start + slip + |raw|] == s.data[start + slip..start + slip + |raw|];
  }

  lemma StageRecords(attempts: seq<Attempt>, j: nat)
    requires Kept(attempts, j) && 0 <= Slip(attempts[..j])
    ensures Recorded(After(attempts[..j + 1]), attempts, j)
  {
    FirstOf(attempts, j + 1);
    var s, s', a := After(attempts[..j]), After(attempts[..j + 1]), attempts[j];
    var start, slip := StartOf(attempts, j), Slip(attempts[..j]);
    assert s'.entries[|s'.entries| - 1] == EntryAt(a, start);
    assert start + slip == |s.data + Zeros(start - s.offset)|;
  }

  /** The slip is the bytes of the tensors refused. */
  lemma {:induction false} SlipIsRefused(attempts: seq<Attempt>, n: nat)
    requires n <= |attempts|
    ensures 0 <= Slip(attempts[..n])
    ensures Slip(attempts[..n]) == 0 <==> forall i :: 0 <= i < n && Refused(attempts, i) ==> attempts[i].tensor.raw == []
  {
    hide Stage, Refused;
    if n == 0 {
      assert attempts[..0] == [];
    } else {
      SlipIsRefused(attempts, n - 1);
      FirstOf(attempts, n);
      StageGrows(After(attempts[..n - 1]), attempts[n - 1]);
      hide After;
      RefusedMeans(attempts, n - 1);
    }
  }

  lemma RefusedMeans(attempts: seq<Attempt>, j: nat)
    requires j < |attempts|
    ensures Refused(attempts, j) <==>
            Find(After(attempts[..j]).entries, attempts[j].key).None? && attempts[j].tensor.dtype !in DTYPES
  {
  }

  lemma {:induction false} RecordedUpTo(attempts: seq<Attempt>, j: nat, n: nat)
    requires Kept(attempts, j) && j < n <= |attempts|
    ensures Recorded(After(attempts[..n]), attempts, j)
    decreases n
  {
    hide *;
    KeptIndex(attempts, j);
    SlipIsRefused(attempts, j);
    if n == j + 1 {
      StageRecords(attempts, j);
    } else {
      RecordedUpTo(attempts, j, n - 1);
      FirstOf(attempts, n);
      StageKeeps(After(attempts[..n - 1]), attempts[n - 1], attempts, j);
    }
  }

  lemma KeptIndex(attempts: seq<Attempt>, j: nat)
    requires Kept(attempts, j)
    ensures j < |attempts|
  {
  }

  /** Whatever was refused in between, recorded ranges are aligned and no two share a byte. */
  lemma RangesApart(attempts: seq<Attempt>, i: nat, j: nat)
    requires Kept(attempts, i) && Kept(attempts, j) && i < j
    ensures StartOf(attempts, i) % ALIGN == 0 && StartOf(attempts, j) % ALIGN == 0
    ensures 0 <= StartOf(attempts, i)
    ensures StartOf(attempts, i) + |attempts[i].tensor.raw| <= StartOf(attempts, j)
    ensures StartOf(attempts, j) + |attempts[j].tensor.raw| <= |After(attempts).data|
  {
    RecordedUpTo(attempts, i, j);
    RecordedUpTo(attempts, j, |attempts|);
    assert attempts[..|attempts|] == attempts;
    SlipIsRefused(attempts, j);
  }

  // --- what comes back ------------------------------------------------------------

  function HeaderFor(meta: map<string, string>, s: Staged): Header {
    Header(MAGIC, meta, s.entries)
  }

  /** A finished file, parsed. */
  function Finished(meta: map<string, string>, before: Bytes, attempts: seq<Attempt>): Opened {
    Opened(HeaderFor(meta, After(attempts)), before, After(attempts).data)
  }

  /** The bytes recorded for attempt j are the same as those that far on. */
  ghost predicate Coincides(attempts: seq<Attempt>, j: nat)
    requires j < |attempts|
  {
    var data, start, slip := After(attempts).data, StartOf(attempts, j), Slip(attempts[..j]);
    var end := start + |attempts[j].tensor.raw|;
    0 <= slip && 0 <= start && end + slip <= |data| && data[start..end] == data[start + slip..end + slip]
  }

  ghost predicate ReadsBack(meta: map<string, string>, before: Bytes, attempts: seq<Attempt>, j: nat)
    requires j < |attempts|
  {
    Get(Finished(meta, before, attempts), attempts[j].key) == Ok(attempts[j].tensor)
  }

  /** A kept tensor that has bytes is always found, with its dtype, its shape and the right number of
      bytes; they are its own exactly when those coincide with what lies at the recorded range. One
      that has none is not read back. */
  lemma GetUndoesAdd(meta: map<string, string>, before: Bytes, attempts: seq<Attempt>, j: nat)
    requires Kept(attempts, j)
    ensures var r, t := Get(Finished(meta, before, attempts), attempts[j].key), attempts[j].tensor;
            if t.raw == [] then r == Err(NoBytes)
            else r.Ok? && r.value.dtype == t.dtype && r.value.shape == t.shape && |r.value.raw| == |t.raw|
    ensures ReadsBack(meta, before, attempts, j) <==> attempts[j].tensor.raw != [] && Coincides(attempts, j)
  {
    assert attempts[j].tensor.dtype in DTYPES;
    hide *;
    KeptIndex(attempts, j);
    RecordedUpTo(attempts, j, |attempts|);
    assert attempts[..|attempts|] == attempts;
    SlipIsRefused(attempts, |attempts|);
    RecordedIsRead(meta, before, attempts, j);
  }

  lemma RecordedIsRead(meta: map<string, string>, before: Bytes, attempts: seq<Attempt>, j: nat)
    requires j < |attempts| && Recorded(After(attempts), attempts, j) && 0 <= Slip(attempts)
    requires attempts[j].tensor.dtype in DTYPES
    ensures var r, t := Get(Finished(meta, before, attempts), attempts[j].key), attempts[j].tensor;
            if t.raw == [] then r == Err(NoBytes)
            else r.Ok? && r.value.dtype == t.dtype && r.value.shape == t.shape && |r.value.raw| == |t.raw|
    ensures ReadsBack(meta, before, attempts, j) <==> attempts[j].tensor.raw != [] && Coincides(attempts, j)
  {
    hide After, Find;
    var s, t, e := After(attempts), attempts[j].tensor, EntryAt(attempts[j], StartOf(attempts, j));
    assert 0 <= e.start <= e.end <= |s.data|;
    if t.raw != [] {
      assert (before + s.data)[|before| + e.start..|before| + e.start + (e.end - e.start)] == s.data[e.start..e.end];
      assert Get(Finished(meta, before, attempts), attempts[j].key) == Ok(Tensor(t.dtype, t.shape, s.data[e.start..e.end]));
    }
  }

  /** Nothing before it left bytes behind. */
  ghost predicate Clear(attempts: seq<Attempt>, j: nat) {
    forall i :: 0 <= i < j && i < |attempts| && Refused(attempts, i) ==> attempts[i].tensor.raw == []
  }

  /** Every tensor kept has bytes, and nothing before it left any behind. */
  ghost predicate Orderly(attempts: seq<Attempt>) {
    forall j :: 0 <= j < |attempts| && Kept(attempts, j) ==> attempts[j].tensor.raw != [] && Clear(attempts, j)
  }

  lemma ClearCoincides(attempts: seq<Attempt>, j: nat)
    requires Clear(attempts, j) && Kept(attempts, j)
    ensures Coincides(attempts, j)
  {
    RecordedUpTo(attempts, j, |attempts|);
    assert attempts[..|attempts|] == attempts;
    SlipIsRefused(attempts, j);
    hide After, Kept, Refused, Find;
  }

  ghost predicate AllReadBack(meta: map<string, string>, before: Bytes, attempts: seq<Attempt>) {
    forall j :: 0 <= j < |attempts| && Kept(attempts, j) ==> ReadsBack(meta, before, attempts, j)
  }

  /** The same keys, dtypes, shapes and lengths, whatever the bytes. */
  ghost predicate SameShapes(a: seq<Attempt>, b: seq<Attempt>) {
    && |a| == |b|
    && forall i :: 0 <= i < |a| ==> Alike(a[i], b[i])
  }

  predicate Alike(a: Attempt, b: Attempt) {
    a.key == b.key && a.tensor.(raw := []) == b.tensor.(raw := []) && |a.tensor.raw| == |b.tensor.raw|
  }

  lemma {:induction false} StagedAlike(a: seq<Attempt>, b: seq<Attempt>, n: nat)
    requires SameShapes(a, b) && n <= |a|
    ensures After(a[..n]).entries == After(b[..n]).entries && After(a[..n]).offset == After(b[..n]).offset
    ensures Slip(a[..n]) == Slip(b[..n])
  {
    hide Stage;
    if n == 0 {
      assert a[..0] == [] && b[..0] == [];
    } else {
      StagedAlike(a, b, n - 1);
      FirstOf(a, n);
      FirstOf(b, n);
      hide After;
      assert Alike(a[n - 1], b[n - 1]);
      StageAlike(After(a[..n - 1]), After(b[..n - 1]), a[n - 1], b[n - 1]);
    }
  }

  lemma StageAlike(s: Staged, r: Staged, a: Attempt, b: Attempt)
    requires s.entries == r.entries && s.offset == r.offset && |s.data| == |r.data| && Alike(a, b)
    ensures Stage(s, a).entries == Stage(r, b).entries && Stage(s, a).offset == Stage(r, b).offset
    ensures |Stage(s, a).data| == |Stage(r, b).data|
  {
  }

  lemma KeptAlike(a: seq<Attempt>, b: seq<Attempt>, j: nat)
    requires SameShapes(a, b)
    ensures (Kept(a, j) <==> Kept(b, j)) && (Refused(a, j) <==> Refused(b, j))
  {
    if j < |a| {
      StagedAlike(a, b, j);
      assert Alike(a[j], b[j]);
    }
  }

  lemma OrderlyAlike(a: seq<Attempt>, b: seq<Attempt>)
    requires SameShapes(a, b) && Orderly(a)
    ensures Orderly(b)
  {
    hide Kept, Refused;
    forall j | 0 <= j < |b| && Kept(b, j) ensures b[j].tensor.raw != [] && Clear(b, j) {
      KeptAlike(a, b, j);
      assert Alike(a[j], b[j]);
      forall i | 0 <= i < j && Refused(b, i) ensures b[i].tensor.raw == [] {
        KeptAlike(a, b, i);
        assert Alike(a[i], b[i]);
      }
    }
  }

  // --- bytes that tell ------------------------------------------------------------

  function Ones(n: nat): (r: Bytes)
    ensures |r| == n && forall i :: 0 <= i < n ==> r[i] == 1
  {
    seq(n, _ => 1)
  }

  /** Attempt j in ones, all others in zeros. */
  function Marked(attempts: seq<Attempt>, j: nat): seq<Attempt> {
    seq(|attempts|, i requires 0 <= i < |attempts| =>
      var n := |attempts[i].tensor.raw|;
      attempts[i].(tensor := attempts[i].tensor.(raw := if i == j then Ones(n) else Zeros(n))))
  }

  predicate AllZero(s: Bytes) {
    forall i :: 0 <= i < |s| ==> s[i] == 0
  }

  lemma {:induction false} ZerosBefore(attempts: seq<Attempt>, j: nat, n: nat)
    requires n <= j < |attempts|
    ensures AllZero(After(Marked(attempts, j)[..n]).data)
  {
    var marked := Marked(attempts, j);
    if n == 0 {
      assert marked[..0] == [];
    } else {
      ZerosBefore(attempts, j, n - 1);
      FirstOf(marked, n);
      hide *;
      MarkedZeros(attempts, j, n - 1);
      StageZeros(After(marked[..n - 1]), marked[n - 1]);
    }
  }

  lemma MarkedZeros(attempts: seq<Attempt>, j: nat, i: nat)
    requires i < j < |attempts|
    ensures |Marked(attempts, j)| == |attempts| && AllZero(Marked(attempts, j)[i].tensor.raw)
  {
  }

  lemma StageZeros(s: Staged, a: Attempt)
    requires AllZero(s.data) && AllZero(a.tensor.raw)
    ensures AllZero(Stage(s, a).data)
  {
    hide Find;
  }

  /** A kept tensor with bytes, behind some that were left, can be told from what is read for it. */
  lemma MarkedIsLost(attempts: seq<Attempt>, j: nat)
    requires Kept(attempts, j) && attempts[j].tensor.raw != [] && Slip(attempts[..j]) != 0
    ensures SameShapes(attempts, Marked(attempts, j)) && Kept(Marked(attempts, j), j) && !Coincides(Marked(attempts, j), j)
  {
    var marked := Marked(attempts, j);
    assert SameShapes(attempts, marked);
    KeptAlike(attempts, marked, j);
    StagedAlike(attempts, marked, j);
    SlipIsRefused(attempts, j);
    ZerosBefore(attempts, j, j);
    RecordedUpTo(marked, j, |marked|);
    assert marked[..|marked|] == marked;
    var raw := marked[j].tensor.raw;
    assert raw[0] == 1;
    hide Kept, Find, Marked, SameShapes;
    PaddedZeros(marked, j);
    if Coincides(marked, j) {
      FirstByte(marked, j);
    }
  }

  lemma FirstByte(attempts: seq<Attempt>, j: nat)
    requires j < |attempts| && Recorded(After(attempts), attempts, j) && Coincides(attempts, j) && attempts[j].tensor.raw != []
    ensures 0 <= StartOf(attempts, j) < |After(attempts).data|
    ensures After(attempts).data[StartOf(attempts, j)] == attempts[j].tensor.raw[0]
  {
    hide After, Find;
    var data, start, slip, n := After(attempts).data, StartOf(attempts, j), Slip(attempts[..j]), |attempts[j].tensor.raw|;
    assert data[start..start + n][0] == data[start + slip..start + slip + n][0];
  }

  /** The recorded range of a tensor begins in what was staged before it. */
  lemma PaddedZeros(attempts: seq<Attempt>, j: nat)
    requires Kept(attempts, j) && Slip(attempts[..j]) > 0 && AllZero(After(attempts[..j]).data)
    ensures StartOf(attempts, j) < |After(attempts).data| && After(attempts).data[StartOf(attempts, j)] == 0
  {
    hide *;
    KeptIndex(attempts, j);
    FirstOf(attempts, j + 1);
    PaddedZero(attempts, j);
    DataGrows(attempts, j + 1, |attempts|);
    assert attempts[..|attempts|] == attempts;
    var data := After(attempts[..j + 1]).data;
    assert After(attempts).data[..|data|][StartOf(attempts, j)] == data[StartOf(attempts, j)];
  }

  lemma PaddedZero(attempts: seq<Attempt>, j: nat)
    requires Kept(attempts, j) && Slip(attempts[..j]) > 0 && AllZero(After(attempts[..j]).data)
    ensures var s' := Stage(After(attempts[..j]), attempts[j]);
            0 <= StartOf(attempts, j) < |s'.data| && s'.data[StartOf(attempts, j)] == 0
  {
    hide After, Find;
  }

  lemma {:induction false} DataGrows(attempts: seq<Attempt>, m: nat, n: nat)
    requires m <= n <= |attempts|
    ensures var s, s' := After(attempts[..m]), After(attempts[..n]);
            |s.data| <= |s'.data| && s'.data[..|s.data|] == s.data
    decreases n
  {
    hide After, Stage;
    if m < n {
      DataGrows(attempts, m, n - 1);
      FirstOf(attempts, n);
      StageGrows(After(attempts[..n - 1]), attempts[n - 1]);
    }
  }

  /** Whatever bytes they hold, the kept tensors of a run of additions all come back exactly when each of
      them has bytes and none comes after one that left bytes behind. */
  lemma ReadsBackExactly(meta: map<string, string>, before: Bytes, attempts: seq<Attempt>)
    ensures (forall filled :: SameShapes(attempts, filled) ==> AllReadBack(meta, before, filled)) <==> Orderly(attempts)
  {
    hide After, Find, Kept, Refused, ReadsBack, Coincides, Clear, Alike, Marked;
    if Orderly(attempts) {
      forall filled | SameShapes(attempts, filled) ensures AllReadBack(meta, before, filled) {
        OrderlyAlike(attempts, filled);
        forall j | 0 <= j < |filled| && Kept(filled, j) ensures ReadsBack(meta, before, filled, j) {
          ClearCoincides(filled, j);
          GetUndoesAdd(meta, before, filled, j);
        }
      }
    } else {
      var j :| 0 <= j < |attempts| && Kept(attempts, j) && !(attempts[j].tensor.raw != [] && Clear(attempts, j));
      if attempts[j].tensor.raw == [] {
        SameAsItself(attempts);
        GetUndoesAdd(meta, before, attempts, j);
        assert !AllReadBack(meta, before, attempts);
      } else {
        NotClear(attempts, j);
        MarkedIsLost(attempts, j);
        GetUndoesAdd(meta, before, Marked(attempts, j), j);
        KeptIndex(Marked(attempts, j), j);
        assert !AllReadBack(meta, before, Marked(attempts, j));
      }
    }
  }

  lemma SameAsItself(attempts: seq<Attempt>)
    ensures SameShapes(attempts, attempts)
  {
  }

  lemma NotClear(attempts: seq<Attempt>, j: nat)
    requires j < |attempts| && !Clear(attempts, j)
    ensures Slip(attempts[..j]) != 0
  {
    hide Refused, After;
    SlipIsRefused(attempts, j);
  }

  /** One byte of a dtype without a name is refused; the one byte added after it reads back as that. */
  lemma ReadsTheRefused(meta: map<string, string>, before: Bytes)
    ensures var attempts := [Attempt("a", Tensor("float8", [1], [7])), Attempt("b", Tensor("uint8", [1], [9]))];
            && Refused(attempts, 0) && Kept(attempts, 1)
            && Get(Finished(meta, before, attempts), "b") == Ok(Tensor("uint8", [1], [7]))
  {
    var attempts := [Attempt("a", Tensor("float8", [1], [7])), Attempt("b", Tensor("uint8", [1], [9]))];
    assert attempts[..0] == [] && attempts[..1] == [attempts[0]] && [attempts[0]][..0] == [];
    assert After(attempts[..1]) == Staged([7], [], 0);
    assert After(attempts) == Staged([7, 9], [Entry("b", "uint8", [1], 0, 1)], 1);
    assert (before + [7, 9])[|before|..|before| + 1] == [7];
  }

  // --- writing ----------------------------------------------------------------

  datatype AddError = Closed | DuplicateKey | UnsupportedDtype

  /** The bytes of the file these additions make. */
  function FileFor(codec: Codec, meta: map<string, string>, attempts: seq<Attempt>): Bytes {
    FileOf(codec.encode(HeaderFor(meta, After(attempts))), After(attempts).data)
  }

  class TensorWriter {
    const codec: Codec
    const meta: map<string, string>
    var data: Bytes
    var entries: seq<Entry>
    var offset: nat
    var closed: bool
    var file: Option<Bytes>
    ghost var attempts: seq<Attempt>

    /** What is staged, and what has been finished, is what the additions make. */
    ghost predicate Valid()
      reads this
    {
      && (!closed ==> Staged(data, entries, offset) == After(attempts))
      && (file.Some? ==>
            file.value == FileFor(codec, meta, attempts)
            && |codec.encode(HeaderFor(meta, After(attempts)))| < Power256(LENGTH_BYTES) && closed)
    }

    constructor (codec: Codec, meta: map<string, string>)
      ensures Valid() && !closed && attempts == [] && file == None && this.codec == codec && this.meta == meta
    {
      this.codec, this.meta := codec, meta;
      data, entries, offset, closed, file, attempts := [], [], 0, false, None, [];
    }

    /** Stage one tensor. */
    method Add(key: string, tensor: Tensor) returns (r: Result<(), AddError>)
      requires Valid()
      modifies this
      ensures Valid() && closed == old(closed) && file == old(file)
      ensures attempts == old(attempts) + if old(closed) then [] else [Attempt(key, tensor)]
      ensures r == if old(closed) then Err(Closed)
                   else if Find(old(entries), key).Some? then Err(DuplicateKey)
                   else if tensor.dtype !in DTYPES then Err(UnsupportedDtype) else Ok(())
      ensures r.Ok? <==> !closed && Kept(attempts, |old(attempts)|)
      ensures r == Err(UnsupportedDtype) <==> !closed && Refused(attempts, |old(attempts)|)
      ensures r.Err? ==> entries == old(entries)
    {
      hide After, Kept, Refused, Find, FileFor, Align, Zeros, Stage, Power256, HeaderFor;
      if closed {
        return Err(Closed);
      }
      ghost var before, a := After(attempts), Attempt(key, tensor);
      AddedLast(attempts, a);
      StageParts(before, a);
      attempts := attempts + [a];
      if Find(entries, key).Some? {
        return Err(DuplicateKey);
      }
      var padded := Align(offset);
      if padded > offset {
        data := data + Zeros(padded - offset);
        offset := padded;
      }
      data := data + tensor.raw;
      if tensor.dtype !in DTYPES {
        return Err(UnsupportedDtype);
      }
      entries := entries + [Entry(key, tensor.dtype, tensor.shape, offset, offset + |tensor.raw|)];
      offset := offset + |tensor.raw|;
      return Ok(());
    }

    /** Join the header and the staged data; nothing happens the second time. False stands for a header
        too long for its length to be written. */
    method Close() returns (done: bool)
      requires Valid()
      modifies this`closed, this`file
      ensures Valid()
      ensures done == (old(closed) || |codec.encode(HeaderFor(meta, After(attempts)))| < Power256(LENGTH_BYTES))
      ensures !old(closed) && done ==> closed && file == Some(FileFor(codec, meta, attempts))
      ensures old(closed) || !done ==> closed == old(closed) && file == old(file)
    {
      if closed {
        return true;
      }
      var header := codec.encode(Header(MAGIC, meta, entries));
      if |header| >= Power256(LENGTH_BYTES) {
        return false;
      }
      file := Some(LittleEndian(|header|, LENGTH_BYTES) + header + data);
      closed := true;
      return true;
    }

    /** Leave nothing behind. */
    method Abort()
      requires Valid()
      modifies this
      ensures Valid() && closed && file == old(file) && attempts == old(attempts) && (old(closed) ==> data == old(data))
    {
      if closed {
        return;
      }
      data, closed := [], true;
    }
  }

  /** What staging comes to: nothing for a known key; else padding if there is any, and the bytes. */
  lemma StageParts(s: Staged, a: Attempt)
    ensures Find(s.entries, a.key).Some? ==> Stage(s, a) == s
    ensures s.offset <= Align(s.offset)
    ensures Find(s.entries, a.key).None? ==>
      var start := Align(s.offset);
      var data := (if start > s.offset then s.data + Zeros(start - s.offset) else s.data) + a.tensor.raw;
      Stage(s, a) == if a.tensor.dtype !in DTYPES then Staged(data, s.entries, start)
                     else Staged(data, s.entries + [Entry(a.key, a.tensor.dtype, a.tensor.shape, start, start + |a.tensor.raw|)],
                                 start + |a.tensor.raw|)
  {
    assert s.data + Zeros(0) == s.data;
  }

  lemma AddedLast(attempts: seq<Attempt>, a: Attempt)
    ensures var longer, s := attempts + [a], After(attempts);
            && After(longer) == Stage(s, a)
            && (Kept(longer, |attempts|) <==> Find(s.entries, a.key).None? && a.tensor.dtype in DTYPES)
            && (Refused(longer, |attempts|) <==> Find(s.entries, a.key).None? && a.tensor.dtype !in DTYPES)
  {
    assert (attempts + [a])[..|attempts|] == attempts;
  }

  // --- reading ----------------------------------------------------------------

  class TensorFile {
    const bytes: Bytes
    const header: Header
    const dataStart: int

    ghost predicate Valid() {
      0 <= dataStart <= |bytes|
    }

    constructor (bytes: Bytes, header: Header, dataStart: int)
      ensures this.bytes == bytes && this.header == header && this.dataStart == dataStart
    {
      this.bytes, this.header, this.dataStart := bytes, header, dataStart;
    }

    /** What the file holds. */
    ghost function Contents(): Opened
      requires Valid()
    {
      Opened(header, bytes[..dataStart], bytes[dataStart..])
    }

    static method Open(codec: Codec, bytes: Bytes) returns (r: Result<TensorFile, OpenError>)
      ensures match Parse(codec, bytes)
              case Err(e) => r == Err(e)
              case Ok(parsed) => r.Ok? && r.value.Valid() && r.value.Contents() == parsed && r.value.bytes == bytes
    {
      if |bytes| < LENGTH_BYTES {
        return Err(TooShort);
      }
      var length := FromLittleEndian(bytes[..LENGTH_BYTES]);
      if length <= 0 || length > MAX_HEADER {
        return Err(ImplausibleLength);
      }
      var end := if LENGTH_BYTES + length <= |bytes| then LENGTH_BYTES + length else |bytes|;
      var header := codec.decode(bytes[LENGTH_BYTES..end]);
      if header.None? {
        return Err(BadHeader);
      }
      if header.value.format != MAGIC {
        return Err(WrongFormat);
      }
      var file := new TensorFile(bytes, header.value, end);
      return Ok(file);
    }

    /** Seek to one tensor and read it. */
    method Read(key: string) returns (r: Result<Tensor, GetError>)
      requires Valid()
      ensures r == Get(Contents(), key)
    {
      assert bytes[..dataStart] + bytes[dataStart..] == bytes;
      var entry := Find(header.entries, key);
      if entry.None? {
        return Err(NoTensor);
      }
      var e := entry.value;
      var from, length := dataStart + e.start, e.end - e.start;
      if from < 0 {
        return Err(BadSeek);
      }
      if length < 0 || (length > 0 && |bytes| < from + length) {
        return Err(Truncated);
      }
      if e.dtype !in DTYPES {
        return Err(UnknownDtype);
      }
      if length == 0 {
        return Err(NoBytes);
      }
      return Ok(Tensor(e.dtype, e.shape, bytes[from..from + length]));
    }
  }

  /** Reader undoes writer: a finished file opens exactly when its header is of a length the reader
      accepts, and then gives back every tensor kept that has bytes and whose bytes coincide with those
      at its recorded range: all that have any, if nothing before left bytes behind. */
  lemma ReaderUndoesWriter(w: TensorWriter, j: nat)
    requires w.Valid() && w.file.Some? && CodecOk(w.codec) && Kept(w.attempts, j)
    ensures var parsed := Parse(w.codec, w.file.value);
            && (parsed.Ok? <==> Plausible(|w.codec.encode(HeaderFor(w.meta, After(w.attempts)))|))
            && (parsed.Ok? ==>
                  var back := Get(parsed.value, w.attempts[j].key) == Ok(w.attempts[j].tensor);
                  && (back <==> w.attempts[j].tensor.raw != [] && Coincides(w.attempts, j))
                  && (w.attempts[j].tensor.raw != [] && Clear(w.attempts, j) ==> back))
  {
    hide After, Kept, Find, Clear, Coincides, Parse, Get, Power256;
    var text := w.codec.encode(HeaderFor(w.meta, After(w.attempts)));
    ParseUndoesFile(w.codec, HeaderFor(w.meta, After(w.attempts)), After(w.attempts).data);
    GetUndoesAdd(w.meta, Prefix(text), w.attempts, j);
    if Clear(w.attempts, j) {
      ClearCoincides(w.attempts, j);
    }
  }
}
