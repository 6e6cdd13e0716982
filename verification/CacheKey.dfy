/** Cache keys and RRD file names (graph/g/utils.go). */
module CacheKey {
  import opened Wrappers
  import opened Strings

  function FormRrdCacheKey(md5: string, dsType: string, step: int): string {
    md5 + "_" + dsType + "_" + Itoa(step)
  }

  datatype KeyParts = KeyParts(md5: string, dsType: string, step: int)

  /** None stands for both error returns. */
  function SplitRrdCacheKey(ckey: string): Option<KeyParts> {
    var parts := Split(ckey, "_");
    if |parts| != 3 then None
    else
      match ParseInt(parts[2], 32)
      case None => None
      case Some(step) => Some(KeyParts(parts[0], parts[1], step))
  }

  /** `md5[0:2]` panics on a shorter checksum. */
  function RrdFileName(baseDir: string, md5: string, dsType: string, step: int): string
    requires |md5| >= 2
  {
    baseDir + "/" + md5[0..2] + "/" + md5 + "_" + dsType + "_" + Itoa(step) + ".rrd"
  }

  /** Splitting undoes forming exactly for underscore-free parts and a 32-bit step. */
  lemma SplitInvertsForm(md5: string, dsType: string, step: int)
    ensures SplitRrdCacheKey(FormRrdCacheKey(md5, dsType, step)) == Some(KeyParts(md5, dsType, step))
            <==> '_' !in md5 && '_' !in dsType && FitsBits(step, 32)
  {
    var key := FormRrdCacheKey(md5, dsType, step);
    ItoaChars(step);
    if '_' !in md5 && '_' !in dsType {
      SplitFormed(md5, dsType, step);
      ParseItoa(step, 32);
    } else {
      SplitLength(key, '_');
      CountConcat(md5 + "_" + dsType + "_", Itoa(step), '_');
      CountConcat(md5 + "_" + dsType, "_", '_');
      CountConcat(md5 + "_", dsType, '_');
      CountConcat(md5, "_", '_');
      CountZero(md5, '_');
      CountZero(dsType, '_');
    }
  }

  lemma SplitFormed(md5: string, dsType: string, step: int)
    requires '_' !in md5 && '_' !in dsType
    ensures Split(FormRrdCacheKey(md5, dsType, step), "_") == [md5, dsType, Itoa(step)]
  {
    var last := Itoa(step);
    ItoaChars(step);
    assert FormRrdCacheKey(md5, dsType, step) == md5 + "_" + (dsType + "_" + last);
    SplitHead(md5, "_", dsType + "_" + last);
    SplitHead(dsType, "_", last);
    SplitLast(last, "_");
  }

  // ----- Keys the graph store holds -----

  /** Keys that `handleItems` forms out of a real checksum, type and step. */
  ghost predicate Formed(key: string) {
    exists md5, dsType, step :: FormedFrom(key, md5, dsType, step)
  }

  predicate FormedFrom(key: string, md5: string, dsType: string, step: int) {
    && |md5| >= 2 && '_' !in md5 && '_' !in dsType && FitsBits(step, 32)
    && key == FormRrdCacheKey(md5, dsType, step)
  }

  /** The file that a formed key is flushed to. */
  function FileOf(baseDir: string, parts: KeyParts): string
    requires |parts.md5| >= 2
  {
    RrdFileName(baseDir, parts.md5, parts.dsType, parts.step)
  }

  lemma FormedSplits(key: string)
    requires Formed(key)
    ensures SplitRrdCacheKey(key).Some?
    ensures var parts := SplitRrdCacheKey(key).value;
            |parts.md5| >= 2 && key == FormRrdCacheKey(parts.md5, parts.dsType, parts.step)
  {
    var md5, dsType, step :| FormedFrom(key, md5, dsType, step);
    SplitInvertsForm(md5, dsType, step);
  }

  /** The key can be read back off the end of its file name. */
  lemma FileShape(baseDir: string, parts: KeyParts)
    requires |parts.md5| >= 2
    ensures var f := FileOf(baseDir, parts);
            |f| >= |baseDir| + 8 && f[|baseDir| + 4..|f| - 4] == FormRrdCacheKey(parts.md5, parts.dsType, parts.step)
  {
    var head := baseDir + "/" + parts.md5[0..2] + "/";
    var key := FormRrdCacheKey(parts.md5, parts.dsType, parts.step);
    assert FileOf(baseDir, parts) == head + key + ".rrd";
  }

  /** The file of a formed key. */
  ghost function KeyFile(baseDir: string, key: string): string
    requires Formed(key)
  {
    FormedSplits(key);
    FileOf(baseDir, SplitRrdCacheKey(key).value)
  }

  /** Distinct keys never share a file. */
  lemma FilesAreDistinct(baseDir: string, key0: string, key1: string)
    requires Formed(key0) && Formed(key1)
    ensures KeyFile(baseDir, key0) == KeyFile(baseDir, key1) <==> key0 == key1
  {
    hide FileOf, FormRrdCacheKey, SplitRrdCacheKey, Formed;
    FormedSplits(key0);
    FormedSplits(key1);
    FileShape(baseDir, SplitRrdCacheKey(key0).value);
    FileShape(baseDir, SplitRrdCacheKey(key1).value);
  }
}
