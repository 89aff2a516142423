/**
 * The audio sample-format table: the mapping between sample formats and their
 * configuration names, the validity test and byte size of a sample description,
 * and the format step of reading a description from, and writing it to, a
 * parameter map.
 */
module Sound {
  import opened Wrappers
  import opened Raster

  /**
   * The sample formats. The six named ones have table entries; `OtherFormat` stands for
   * every further enumerator of the format enum, none of which has a name.
   */
  datatype SampleFormat = FmtNone | U8 | S16 | S32 | Vorbis | Aac | Mp2 | OtherFormat(code: int)

  /**
   * The six configuration names of the table, whose spelling is defined outside this
   * file. Nothing is assumed of them except where a property states it.
   */
  datatype FormatNames = FormatNames(u8: string, s16: string, s32: string, vorbis: string, aac: string, mp2: string)

  /** The six names are pairwise different: what the lookups need to invert each other. */
  predicate Distinct(n: FormatNames) {
    forall i, j :: 0 <= i < j < |Table(n)| ==> Table(n)[i].name != Table(n)[j].name
  }

  /** No name is empty: what a parameter map needs, since it reads an empty entry as missing. */
  predicate NonEmpty(n: FormatNames) {
    forall i :: 0 <= i < |Table(n)| ==> |Table(n)[i].name| > 0
  }

  /** The set of all configuration names. */
  function NameSet(n: FormatNames): set<string> {
    {n.u8, n.s16, n.s32, n.vorbis, n.aac, n.mp2}
  }

  /** The intended naming, format by format: the reference the table lookups are held to. */
  function NameOf(n: FormatNames, fmt: SampleFormat): Option<string> {
    match fmt
    case U8 => Some(n.u8)
    case S16 => Some(n.s16)
    case S32 => Some(n.s32)
    case Vorbis => Some(n.vorbis)
    case Aac => Some(n.aac)
    case Mp2 => Some(n.mp2)
    case _ => None
  }

  datatype Entry = Entry(fmt: SampleFormat, name: string)

  /** The lookup table, in its source order. */
  function Table(n: FormatNames): seq<Entry> {
    [Entry(U8, n.u8), Entry(S16, n.s16), Entry(S32, n.s32),
     Entry(Vorbis, n.vorbis), Entry(Aac, n.aac), Entry(Mp2, n.mp2)]
  }

  /** Linear search for the first entry of format `fmt`; `|t|` when there is none. */
  function FindByFmt(t: seq<Entry>, fmt: SampleFormat): (i: nat)
    ensures i <= |t|
    ensures i < |t| ==> t[i].fmt == fmt
    ensures forall k :: 0 <= k < i ==> t[k].fmt != fmt
    decreases |t|
  {
    if |t| == 0 then 0
    else if t[0].fmt == fmt then 0
    else 1 + FindByFmt(t[1..], fmt)
  }

  /** Linear search for the first entry named `s`; `|t|` when there is none. */
  function FindByName(t: seq<Entry>, s: string): (i: nat)
    ensures i <= |t|
    ensures i < |t| ==> t[i].name == s
    ensures forall k :: 0 <= k < i ==> t[k].name != s
    decreases |t|
  {
    if |t| == 0 then 0
    else if t[0].name == s then 0
    else 1 + FindByName(t[1..], s)
  }

  /** The name of a format: the table's name for the six named formats, null (None) for every other. */
  function SampleFmtToString(n: FormatNames, fmt: SampleFormat): (s: Option<string>)
    ensures s == NameOf(n, fmt)
    ensures s.Some? ==> s.value in NameSet(n)
  {
    var t := Table(n);
    var i := FindByFmt(t, fmt);
    assert t[0].fmt == U8 && t[1].fmt == S16 && t[2].fmt == S32;
    assert t[3].fmt == Vorbis && t[4].fmt == Aac && t[5].fmt == Mp2;
    if i < |t| then Some(t[i].name) else None
  }

  /**
   * The format of a name: the first table entry carrying that name, or `FmtNone` for a
   * string that is not a name.
   */
  function StringToSampleFmt(n: FormatNames, s: string): (fmt: SampleFormat)
    ensures fmt == FmtNone <==> s !in NameSet(n)
    ensures fmt != FmtNone ==> NameOf(n, fmt) == Some(s)
  {
    var t := Table(n);
    var i := FindByName(t, s);
    assert t[0].name == n.u8 && t[1].name == n.s16 && t[2].name == n.s32;
    assert t[3].name == n.vorbis && t[4].name == n.aac && t[5].name == n.mp2;
    if i < |t| then t[i].fmt else FmtNone
  }

  /** Every named format survives a trip through its name, when the names are distinct. */
  lemma FormatRoundTrip(n: FormatNames, fmt: SampleFormat)
    requires Distinct(n)
    requires NameOf(n, fmt).Some?
    ensures StringToSampleFmt(n, SampleFmtToString(n, fmt).value) == fmt
  {
    var t := Table(n);
    var f := StringToSampleFmt(n, SampleFmtToString(n, fmt).value);
    assert t[0].name == n.u8 && t[1].name == n.s16 && t[2].name == n.s32;
    assert t[3].name == n.vorbis && t[4].name == n.aac && t[5].name == n.mp2;
  }

  /** Every name survives a trip through its format, whether or not the names are distinct. */
  lemma NameRoundTrip(n: FormatNames, s: string)
    requires s in NameSet(n)
    ensures SampleFmtToString(n, StringToSampleFmt(n, s)) == Some(s)
  {
  }

  /**
   * The lookup by name takes the first match: were two formats to share a name, the
   * later one would not survive a round trip. This is why FormatRoundTrip needs distinct names.
   */
  lemma SharedNameTakesFirst()
    ensures var n := FormatNames("pcm", "pcm", "s32", "vorbis", "aac", "mp2");
      StringToSampleFmt(n, SampleFmtToString(n, S16).value) == U8
  {
    var n := FormatNames("pcm", "pcm", "s32", "vorbis", "aac", "mp2");
    assert Table(n)[0].name == "pcm";
  }

  // ---------------------------------------------------------------------------
  // Sample descriptions
  // ---------------------------------------------------------------------------

  /** A sample description: format, channel count, sample rate and samples per frame. */
  datatype SampleInfo = SampleInfo(fmt: SampleFormat, channels: int, sampleRate: int, nbSamples: int)

  /** A usable description: a known format, at least one channel and a positive rate. */
  predicate SampleInfoIsValid(si: SampleInfo) {
    si.fmt != FmtNone && si.channels > 0 && si.sampleRate > 0
  }

  /** The number of values of the unsigned size type (32-bit targets). */
  const SizeModulus := 0x1_0000_0000

  /** Bytes per sample of one channel: the PCM widths, and 0 for compressed or unknown formats. */
  function BytesPerSample(fmt: SampleFormat): nat {
    match fmt
    case U8 => 1
    case S16 => 2
    case S32 => 4
    case _ => 0
  }

  /**
   * The bytes of one sample across all channels, in the unsigned size type: the
   * channel count is converted (a negative count wraps), then shifted left by the
   * log2 of the PCM width, wrapping again; compressed and unknown formats give 0.
   */
  function GetSampleSize(si: SampleInfo): (size: int)
    ensures 0 <= size < SizeModulus
    ensures size == (si.channels * BytesPerSample(si.fmt)) % SizeModulus
    ensures 0 <= si.channels * BytesPerSample(si.fmt) < SizeModulus ==>
      size == si.channels * BytesPerSample(si.fmt)
  {
    var sampleSize := si.channels % SizeModulus;
    ModMul(si.channels, BytesPerSample(si.fmt), SizeModulus);
    match si.fmt
    case U8 => sampleSize
    case S16 => (sampleSize * 2) % SizeModulus
    case S32 => (sampleSize * 4) % SizeModulus
    case _ => 0
  }

  /** Reducing a factor first does not change a product modulo `m`. */
  lemma ModMul(c: int, k: nat, m: int)
    requires m > 0
    ensures (c % m * k) % m == (c * k) % m
  {
    var q, r := c / m, c % m;
    assert c * k == r * k + (q * k) * m;
    ModShift(r * k, q * k, m);
  }

  /** Adding a multiple of `m` does not change a value modulo `m`. */
  lemma ModShift(x: int, y: int, m: int)
    requires m > 0
    ensures (x + y * m) % m == x % m
  {
    var q, r := x / m, x % m;
    assert (q + y) * m == q * m + y * m;
    DivModUnique(x + y * m, q + y, r, m);
  }

  /** Euclidean division is unique: a quotient and an in-range remainder are the quotient and remainder. */
  lemma DivModUnique(a: int, d: int, r: int, m: int)
    requires m > 0 && a == d * m + r && 0 <= r < m
    ensures a % m == r
  {
    var d', r' := a / m, a % m;
    if d' < d {
      MulLeft(d' + 1, d, m);
    } else if d < d' {
      MulLeft(d + 1, d', m);
    }
  }

  /**
   * A valid PCM description of a realistic channel count has a positive sample size;
   * a compressed format has none, whatever its channel count.
   */
  lemma SampleSizePositive(si: SampleInfo)
    requires SampleInfoIsValid(si)
    requires si.channels < SizeModulus / 4
    ensures si.fmt in {U8, S16, S32} ==> GetSampleSize(si) >= si.channels > 0
    ensures si.fmt in {Vorbis, Aac, Mp2} ==> GetSampleSize(si) == 0
  {
  }

  // ---------------------------------------------------------------------------
  // Parameter maps: the format step
  // ---------------------------------------------------------------------------

  /** The configuration keys a sample description is stored under, whose spelling is defined outside this file. */
  datatype ParamKeys = ParamKeys(inputDataType: string, channels: string, sampleRate: string, frames: string)

  /**
   * The outcome of reading the format field: rejected (the reader returns false), or
   * accepted with the format filled in, the numeric fields still to be read.
   */
  datatype ParseOutcome = Rejected(si: SampleInfo) | FormatAccepted(si: SampleInfo)

  /**
   * The format step of reading a description from a parameter map. A missing or empty
   * entry rejects with the description untouched; a value that is not a format name
   * rejects with the format set to `FmtNone`; a name sets the format and reading
   * goes on.
   */
  function ParseFormatField(n: FormatNames, keys: ParamKeys, params: map<string, string>, si: SampleInfo): (o: ParseOutcome)
    ensures keys.inputDataType !in params || params[keys.inputDataType] == "" ==> o == Rejected(si)
    ensures keys.inputDataType in params && params[keys.inputDataType] != "" ==>
      var value := params[keys.inputDataType];
      && o.si == si.(fmt := o.si.fmt)
      && (o.Rejected? <==> value !in NameSet(n))
      && (o.Rejected? ==> o.si.fmt == FmtNone)
      && (o.FormatAccepted? ==> SampleFmtToString(n, o.si.fmt) == Some(value))
  {
    var value := if keys.inputDataType in params then params[keys.inputDataType] else "";
    if value == "" then Rejected(si)
    else
      var fmt := StringToSampleFmt(n, value);
      if fmt == FmtNone then Rejected(si.(fmt := fmt)) else FormatAccepted(si.(fmt := fmt))
  }

  /** A parameter value as written: a format name, or a decimal number. */
  datatype ParamValue = Text(text: string) | Number(number: int)

  datatype Param = Param(key: string, value: ParamValue)

  /**
   * The parameter list of a description: empty when its format has no name; otherwise
   * the format name, then channels, sample rate and samples per frame.
   */
  function ToParamString(n: FormatNames, keys: ParamKeys, si: SampleInfo): (ps: seq<Param>)
    ensures |ps| == 0 <==> NameOf(n, si.fmt).None?
    ensures |ps| > 0 ==> |ps| == 4 && ps[0] == Param(keys.inputDataType, Text(NameOf(n, si.fmt).value))
  {
    match SampleFmtToString(n, si.fmt)
    case None => []
    case Some(name) =>
      [Param(keys.inputDataType, Text(name)),
       Param(keys.channels, Number(si.channels)),
       Param(keys.sampleRate, Number(si.sampleRate)),
       Param(keys.frames, Number(si.nbSamples))]
  }

  /**
   * The format written by ToParamString is read back by ParseFormatField: writing a
   * description with a named format and reading the entry back restores the format.
   */
  lemma FormatSurvivesParams(n: FormatNames, keys: ParamKeys, si: SampleInfo, into: SampleInfo)
    requires Distinct(n) && NonEmpty(n)
    requires NameOf(n, si.fmt).Some?
    ensures var ps := ToParamString(n, keys, si);
      ParseFormatField(n, keys, map[ps[0].key := ps[0].value.text], into) == FormatAccepted(into.(fmt := si.fmt))
  {
    FormatRoundTrip(n, si.fmt);
    var t := Table(n);
    assert t[0].name == n.u8 && t[1].name == n.s16 && t[2].name == n.s32;
    assert t[3].name == n.vorbis && t[4].name == n.aac && t[5].name == n.mp2;
  }
}
