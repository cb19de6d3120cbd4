/**
  What the converter takes out of one loaded MAT file: the single user record
  (every key except the three metadata keys `loadmat` adds), the first sub-field
  of that record tagged 'AUDIO', and the sample rate to write it at.
 */
module MatRecord {
  import opened Optional

  /** One audio sample, kept as the bit pattern of the float64 the file stores;
      the converter never looks inside a sample. */
  type Sample = bv64

  /** A sub-field of the record: its name tag (`field[0][0]`), its own sample
      rate (`field[1][0][0]`) and its sample buffer (`np.squeeze(field[2])`). */
  datatype Field = Field(name: string, rate: int, samples: seq<Sample>)

  /** The record's sub-fields in file order (`record[0]`). */
  type Record = seq<Field>

  /** What `scipy.io.loadmat` returns: variable name to value. */
  type MatContents = map<string, Record>

  /** The keys `loadmat` adds to every result besides the file's own variables. */
  const MetadataKeys: set<string> := {"__header__", "__version__", "__globals__"}

  const AudioTag := "AUDIO"

  /** `mat.keys() - remKeys` */
  function RecordKeys(mat: MatContents): set<string> {
    mat.Keys - MetadataKeys
  }

  lemma SingletonMember<T>(s: set<T>, x: T)
    requires |s| == 1 && x in s
    ensures s == {x}
  {
    assert |s - {x}| == 0;
  }

  /** The record: the value of the one key left once the metadata keys are
      removed. Zero keys or more than one is a failure, reported with the count. */
  function SelectRecord(mat: MatContents): (r: Result<Record, nat>)
    ensures r.Ok? <==> |RecordKeys(mat)| == 1
    ensures r.Ok? ==> forall k :: k in RecordKeys(mat) ==> r.value == mat[k]
    ensures r.Err? ==> r.error == |RecordKeys(mat)| && r.error != 1
  {
    var keys := RecordKeys(mat);
    if |keys| == 1 then
      var k :| k in keys;
      SingletonMember(keys, k);
      Ok(mat[k])
    else
      Err(|keys|)
  }

  /** The metadata entries play no part in the selection: whatever `loadmat`
      puts under its three keys, the same record (or the same count) results. */
  lemma SelectIgnoresMetadata(mat: MatContents, meta: MatContents)
    requires meta.Keys <= MetadataKeys
    ensures SelectRecord(mat + meta) == SelectRecord(mat)
  {
    assert RecordKeys(mat + meta) == RecordKeys(mat);
  }

  /** The index of the first sub-field tagged 'AUDIO', if any. */
  function FirstAudio(rec: Record): (r: Option<nat>)
    ensures r.Some? ==> r.value < |rec| && rec[r.value].name == AudioTag
    ensures r.Some? ==> forall j :: 0 <= j < r.value ==> rec[j].name != AudioTag
    ensures r.None? <==> forall j :: 0 <= j < |rec| ==> rec[j].name != AudioTag
  {
    if rec == [] then None
    else if rec[0].name == AudioTag then Some(0)
    else match FirstAudio(rec[1..])
      case None => None
      case Some(k) => Some(k + 1)
  }

  /** Python's truthiness of `forceBitrate`: set, and not zero. */
  predicate Overrides(forceBitrate: Option<int>) {
    forceBitrate.Some? && forceBitrate.value != 0
  }

  /** `forceBitrate or field[1][0][0]` */
  function SampleRate(forceBitrate: Option<int>, fieldRate: int): int {
    if Overrides(forceBitrate) then forceBitrate.value else fieldRate
  }

  /** The samples to write and the rate to write them at. */
  datatype Audio = Audio(samples: seq<Sample>, rate: int)

  /** The audio of a record: that of its first 'AUDIO' sub-field. */
  function ExtractAudio(rec: Record, forceBitrate: Option<int>): Option<Audio> {
    match FirstAudio(rec)
    case None => None
    case Some(k) => Some(Audio(rec[k].samples, SampleRate(forceBitrate, rec[k].rate)))
  }

  /** The first 'AUDIO' sub-field decides: whatever follows it, including further
      'AUDIO' sub-fields, is ignored. The rate is the override when one is set,
      else the sub-field's own. */
  lemma FirstAudioWins(pre: Record, f: Field, post: Record, forceBitrate: Option<int>)
    requires forall j :: 0 <= j < |pre| ==> pre[j].name != AudioTag
    requires f.name == AudioTag
    ensures ExtractAudio(pre + [f] + post, forceBitrate).Some?
    ensures ExtractAudio(pre + [f] + post, forceBitrate).value.samples == f.samples
    ensures Overrides(forceBitrate) ==> ExtractAudio(pre + [f] + post, forceBitrate).value.rate == forceBitrate.value
    ensures !Overrides(forceBitrate) ==> ExtractAudio(pre + [f] + post, forceBitrate).value.rate == f.rate
  {
    var rec := pre + [f] + post;
    assert rec[|pre|] == f;
    var k := FirstAudio(rec);
    assert k.Some?;
    assert k.value == |pre|;
  }

  /** The scan of the record's sub-fields: stop at the first one tagged 'AUDIO'
      and take its samples and rate. */
  method ScanAudio(rec: Record, forceBitrate: Option<int>) returns (audio: Option<Audio>)
    ensures audio == ExtractAudio(rec, forceBitrate)
    ensures audio.None? <==> forall j :: 0 <= j < |rec| ==> rec[j].name != AudioTag
  {
    audio := None;
    for i := 0 to |rec|
      invariant audio == None
      invariant forall j :: 0 <= j < i ==> rec[j].name != AudioTag
    {
      var field := rec[i];
      if field.name == AudioTag {
        audio := Some(Audio(field.samples, SampleRate(forceBitrate, field.rate)));
        assert FirstAudio(rec) == Some(i);
        break;
      }
    }
  }
}
