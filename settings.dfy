/** The `--mpv-setting` value parser of src/args.rs. */
module Settings {
  import opened Wrappers
  import opened Text

  /**
   * `parse_setting`: a setting is split at its first `=` into a key and a
   * value; without `=` the whole text is the key and the value is empty.
   * It never fails.
   */
  function ParseSetting(raw: string): (r: Result<(string, string), string>)
    ensures r.Ok?
    ensures '=' in raw ==> r.value.0 + "=" + r.value.1 == raw && '=' !in r.value.0
    ensures '=' !in raw ==> r.value == (raw, "")
  {
    match SplitOnce(raw, '=')
    case Some(kv) => Ok(kv)
    case None => Ok((raw, ""))
  }

  /** In a key without `=` followed by `=`, that `=` is the first one. */
  lemma FirstEquals(key: string, value: string)
    requires '=' !in key
    ensures (key + "=" + value)[|key|] == '='
    ensures forall j :: 0 <= j < |key| ==> (key + "=" + value)[j] != '='
  {
  }

  /** A text has one split at its first `=`: any key without `=` that precedes one is that split's key. */
  lemma FirstSplitUnique(k1: string, v1: string, k2: string, v2: string)
    requires k1 + "=" + v1 == k2 + "=" + v2
    requires '=' !in k1 && '=' !in k2
    ensures k1 == k2 && v1 == v2
  {
    var raw := k1 + "=" + v1;
    FirstEquals(k1, v1);
    FirstEquals(k2, v2);
    assert |k1| == |k2|;
    assert k1 == raw[..|k1|] == k2;
    assert v1 == raw[|k1| + 1..] == v2;
  }

  /** Writing a key without `=`, then `=`, then any value, and parsing it gives back the key and the value. */
  lemma ParseSettingRoundTrip(key: string, value: string)
    requires '=' !in key
    ensures ParseSetting(key + "=" + value) == Ok((key, value))
  {
    var raw := key + "=" + value;
    assert raw[|key|] == '=';
    var r := ParseSetting(raw);
    FirstSplitUnique(r.value.0, r.value.1, key, value);
  }
}
