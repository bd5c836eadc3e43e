/** Where a reassembled BAM is written: two levels of numbered subdirectories derived from the
    minimal-representation position, and a file name that spells out the variant, the genotype
    class, the sample's rank and an optional suffix. */
module OutputPath {
  import opened Text

  const DirsLevel1 := 100
  const DirsLevel2 := 10000
  const MaxAlleleLength := 75
  /** The default `--bam-output-dir`. */
  const DefaultBamOutputDir := "/broad/hptmp/exac_readviz_backend/"

  /** `s[:n]`: the first `n` characters, or all of `s` when it is shorter. */
  function Prefix(s: string, n: nat): (r: string)
    ensures |r| <= n && StartsWith(s, r)
    ensures |s| <= n ==> r == s
    ensures |s| > n ==> |r| == n
  {
    if |s| <= n then s else s[..n]
  }

  /** `os.path.join(a, b)`: an absolute `b` replaces `a`; otherwise one `/` separates them
      unless `a` is empty or already ends with `/`. */
  function PathJoin(a: string, b: string): string
  {
    if StartsWith(b, "/") then b
    else if a == [] || a[|a| - 1] == '/' then a + b
    else a + "/" + b
  }

  /** `"%02d/%04d" % (pos % 100, pos % 10000)`. */
  function Subdir(pos: int): string
  {
    ZeroPadded(pos % DirsLevel1, 2) + "/" + ZeroPadded(pos % DirsLevel2, 4)
  }

  /** `chr<chrom>-<pos>-<ref[:75]>-<alt[:75]>`: the part of the file name shared by every sample. */
  function VariantStem(chrom: string, pos: int, ref: string, alt: string): string
  {
    "chr" + chrom + "-" + IntToString(pos) + "-" + Prefix(ref, MaxAlleleLength) + "-" + Prefix(alt, MaxAlleleLength)
  }

  /** `<het|hom><i><suffix>.bam`: the part of the file name that tells the samples apart. */
  function SampleTag(hetOrHom: string, sampleIndex: nat, suffix: string): string
  {
    hetOrHom + NatToString(sampleIndex) + suffix + ".bam"
  }

  /** The file name of the `sampleIndex`-th (0-based) reassembled BAM of class `hetOrHom`. */
  function BamFileName(chrom: string, pos: int, ref: string, alt: string, hetOrHom: string, sampleIndex: nat, suffix: string): string
  {
    VariantStem(chrom, pos, ref, alt) + "_" + SampleTag(hetOrHom, sampleIndex, suffix)
  }

  /** `compute_reassembled_bam_path`. */
  function ReassembledBamPath(baseDir: string, chrom: string, pos: int, ref: string, alt: string,
                              hetOrHom: string, sampleIndex: nat, suffix: string): string
  {
    PathJoin(PathJoin(baseDir, Subdir(pos)), BamFileName(chrom, pos, ref, alt, hetOrHom, sampleIndex, suffix))
  }

  /** The path of a reassembled BAM relative to the output directory. */
  function RelativeBamPath(chrom: string, pos: int, ref: string, alt: string,
                           hetOrHom: string, sampleIndex: nat, suffix: string): string
  {
    Subdir(pos) + "/" + BamFileName(chrom, pos, ref, alt, hetOrHom, sampleIndex, suffix)
  }

  /** The relative path as the driver derives it: every occurrence of `baseDir + "/"` in the
      full path is deleted. */
  function RelativeBamPathAsWritten(baseDir: string, fullPath: string): string
  {
    ReplaceAll(fullPath, baseDir + "/", "")
  }

  /** The last two decimal digits of `x` are the digits of `x % 100`. */
  lemma LastTwoDigits(x: nat)
    ensures x % 100 % 10 == x % 10
    ensures x % 100 / 10 == x / 10 % 10
  {
    var q, y := x / 100, x % 100;
    var a, b := y / 10, y % 10;
    assert x == 10 * (10 * q + a) + b;
    assert x % 10 == b && x / 10 == 10 * q + a;
    assert (10 * q + a) % 10 == a;
  }

  /** The last two of four padded digits are the two padded digits of the value modulo 100. */
  lemma ZeroPaddedLastTwo(x: nat)
    ensures ZeroPadded(x, 4)[2..] == ZeroPadded(x % 100, 2)
  {
    var y := x % 100;
    LastTwoDigits(x);
    var low, high := DigitChar(x % 10), DigitChar(x / 10 % 10);
    assert ZeroPadded(y / 10, 1) == ZeroPadded(y / 100, 0) + [high];
    assert ZeroPadded(y, 2) == [high, low];
    assert ZeroPadded(x / 10, 3) == ZeroPadded(x / 100, 2) + [high];
    assert ZeroPadded(x, 4) == ZeroPadded(x / 100, 2) + [high, low];
  }

  /** Two digits, a `/`, four digits. */
  lemma SubdirShape(pos: int)
    ensures var d := Subdir(pos);
      |d| == 7 && d[2] == '/' && forall i :: 0 <= i < |d| && i != 2 ==> IsDigit(d[i])
  {
    var d := Subdir(pos);
    forall i | 0 <= i < |d| && i != 2 ensures IsDigit(d[i]) {
      if i < 2 {
        assert d[i] == ZeroPadded(pos % DirsLevel1, 2)[i];
      } else {
        assert d[i] == ZeroPadded(pos % DirsLevel2, 4)[i - 3];
      }
    }
  }

  lemma SubdirLevel1(pos: int)
    ensures DigitsValue(Subdir(pos)[..2]) == pos % DirsLevel1
  {
    assert Subdir(pos)[..2] == ZeroPadded(pos % DirsLevel1, 2);
    ZeroPaddedValue(pos % DirsLevel1, 2);
  }

  lemma SubdirLevel2(pos: int)
    ensures DigitsValue(Subdir(pos)[3..]) == pos % DirsLevel2
  {
    assert Subdir(pos)[3..] == ZeroPadded(pos % DirsLevel2, 4);
    ZeroPaddedValue(pos % DirsLevel2, 4);
  }

  lemma NestedModulus(pos: int)
    ensures pos % DirsLevel2 % 100 == pos % DirsLevel1
  {
    var q, x := pos / DirsLevel2, pos % DirsLevel2;
    assert pos == 100 * (100 * q) + x;
  }

  lemma SubdirNested(pos: int)
    ensures Subdir(pos)[5..] == Subdir(pos)[..2]
  {
    var x := pos % DirsLevel2;
    assert Subdir(pos)[5..] == ZeroPadded(x, 4)[2..];
    assert Subdir(pos)[..2] == ZeroPadded(pos % DirsLevel1, 2);
    NestedModulus(pos);
    ZeroPaddedLastTwo(x);
  }

  /** The two directory names are the position modulo 100 and modulo 10000, zero-padded to two
      and four digits, and the second ends with the first. */
  lemma SubdirLayout(pos: int)
    ensures var d := Subdir(pos);
      && |d| == 7 && d[2] == '/'
      && DigitsValue(d[..2]) == pos % DirsLevel1
      && DigitsValue(d[3..]) == pos % DirsLevel2
      && d[5..] == d[..2]
  {
    SubdirShape(pos);
    SubdirLevel1(pos);
    SubdirLevel2(pos);
    SubdirNested(pos);
  }

  /** The directory `os.path.join(baseDir, x)` puts in front of a relative `x`. */
  function DirPrefix(baseDir: string): string
  {
    if baseDir == [] || baseDir[|baseDir| - 1] == '/' then baseDir else baseDir + "/"
  }

  lemma JoinRelative(baseDir: string, x: string)
    requires x != [] && x[0] != '/'
    ensures PathJoin(baseDir, x) == DirPrefix(baseDir) + x
  {
  }

  /** The relative path has no leading `/`, and joining it onto the output directory gives the
      full path, for every output directory. */
  lemma RelativeBamPathRoundTrip(baseDir: string, chrom: string, pos: int, ref: string, alt: string,
                                 hetOrHom: string, sampleIndex: nat, suffix: string)
    ensures var rel := RelativeBamPath(chrom, pos, ref, alt, hetOrHom, sampleIndex, suffix);
      && rel != [] && rel[0] != '/'
      && PathJoin(baseDir, rel) == ReassembledBamPath(baseDir, chrom, pos, ref, alt, hetOrHom, sampleIndex, suffix)
  {
    var sub := Subdir(pos);
    var file := BamFileName(chrom, pos, ref, alt, hetOrHom, sampleIndex, suffix);
    var rel := RelativeBamPath(chrom, pos, ref, alt, hetOrHom, sampleIndex, suffix);
    var dir := DirPrefix(baseDir);
    SubdirShape(pos);
    assert rel == sub + "/" + file && rel[0] == sub[0];
    assert file[0] == 'c';
    JoinRelative(baseDir, sub);
    JoinRelative(baseDir, rel);
    var joined := dir + sub;
    assert joined[|joined| - 1] == sub[|sub| - 1];
    assert PathJoin(joined, file) == joined + "/" + file;
    assert dir + rel == joined + "/" + file;
  }

  lemma ConcatCancel(a: string, b: string, c: string)
    requires a + b == a + c
    ensures b == c
  {
    assert b == (a + b)[|a|..];
    assert c == (a + c)[|a|..];
  }

  /** Sample tags with class names of equal length are equal only for the same class and rank. */
  lemma SampleTagInjective(class1: string, index1: nat, class2: string, index2: nat, suffix: string)
    requires |class1| == |class2|
    requires SampleTag(class1, index1, suffix) == SampleTag(class2, index2, suffix)
    ensures class1 == class2 && index1 == index2
  {
    var n1, n2 := NatToString(index1), NatToString(index2);
    var t1, t2 := SampleTag(class1, index1, suffix), SampleTag(class2, index2, suffix);
    assert t1 == class1 + (n1 + suffix + ".bam");
    assert t2 == class2 + (n2 + suffix + ".bam");
    assert class1 == t1[..|class1|] && class2 == t2[..|class2|];
    ConcatCancel(class1, n1 + suffix + ".bam", n2 + suffix + ".bam");
    assert n1 == (n1 + suffix + ".bam")[..|n1|];
    assert n2 == (n2 + suffix + ".bam")[..|n2|];
    NatToStringInjective(index1, index2);
  }

  /** Within one variant, the relative paths of two samples with distinct (class, rank) differ,
      whatever the ranks; class names of equal length suffice (`het`, `hom`). */
  lemma RelativeBamPathsDistinct(chrom: string, pos: int, ref: string, alt: string, suffix: string,
                                 class1: string, index1: nat, class2: string, index2: nat)
    requires |class1| == |class2|
    requires class1 != class2 || index1 != index2
    ensures RelativeBamPath(chrom, pos, ref, alt, class1, index1, suffix)
         != RelativeBamPath(chrom, pos, ref, alt, class2, index2, suffix)
  {
    var file1 := BamFileName(chrom, pos, ref, alt, class1, index1, suffix);
    var file2 := BamFileName(chrom, pos, ref, alt, class2, index2, suffix);
    var stem := VariantStem(chrom, pos, ref, alt) + "_";
    if SampleTag(class1, index1, suffix) == SampleTag(class2, index2, suffix) {
      SampleTagInjective(class1, index1, class2, index2, suffix);
    }
    assert file1 != file2 by {
      if file1 == file2 {
        ConcatCancel(stem, SampleTag(class1, index1, suffix), SampleTag(class2, index2, suffix));
      }
    }
    if Subdir(pos) + "/" + file1 == Subdir(pos) + "/" + file2 {
      ConcatCancel(Subdir(pos) + "/", file1, file2);
    }
  }

  /** The same holds for the full output paths, under any output directory. */
  lemma ReassembledBamPathsDistinct(baseDir: string, chrom: string, pos: int, ref: string, alt: string, suffix: string,
                                    class1: string, index1: nat, class2: string, index2: nat)
    requires |class1| == |class2|
    requires class1 != class2 || index1 != index2
    ensures ReassembledBamPath(baseDir, chrom, pos, ref, alt, class1, index1, suffix)
         != ReassembledBamPath(baseDir, chrom, pos, ref, alt, class2, index2, suffix)
  {
    var rel1 := RelativeBamPath(chrom, pos, ref, alt, class1, index1, suffix);
    var rel2 := RelativeBamPath(chrom, pos, ref, alt, class2, index2, suffix);
    RelativeBamPathRoundTrip(baseDir, chrom, pos, ref, alt, class1, index1, suffix);
    RelativeBamPathRoundTrip(baseDir, chrom, pos, ref, alt, class2, index2, suffix);
    RelativeBamPathsDistinct(chrom, pos, ref, alt, suffix, class1, index1, class2, index2);
    var dir := DirPrefix(baseDir);
    JoinRelative(baseDir, rel1);
    JoinRelative(baseDir, rel2);
    assert (dir + rel1)[|dir|..] == rel1 && (dir + rel2)[|dir|..] == rel2;
  }

  /** No two consecutive slashes. */
  predicate NoDoubleSlash(s: string)
  {
    forall i :: 0 <= i < |s| - 1 ==> s[i] != '/' || s[i + 1] != '/'
  }

  lemma NoDoubleSlashConcat(a: string, b: string)
    requires NoDoubleSlash(a) && NoDoubleSlash(b)
    requires a == [] || b == [] || a[|a| - 1] != '/' || b[0] != '/'
    ensures NoDoubleSlash(a + b)
  {
    var s := a + b;
    forall i | 0 <= i < |s| - 1 ensures s[i] != '/' || s[i + 1] != '/' {
      if i + 1 < |a| {
        assert s[i] == a[i] && s[i + 1] == a[i + 1];
      } else if i >= |a| {
        assert s[i] == b[i - |a|] && s[i + 1] == b[i + 1 - |a|];
      }
    }
  }

  /** A string with no `//` contains no pattern ending in `//`. */
  lemma NoDoubleSlashExcludes(s: string, p: string)
    requires NoDoubleSlash(s)
    requires |p| >= 2 && p[|p| - 2] == '/' && p[|p| - 1] == '/'
    ensures !Contains(s, p)
  {
    forall i | 0 <= i <= |s| - |p| ensures !OccursAt(s, p, i) {
      var k := i + |p| - 2;
      assert s[k] != '/' || s[k + 1] != '/';
      assert s[i..i + |p|][|p| - 2] == s[k] && s[i..i + |p|][|p| - 1] == s[k + 1];
    }
  }

  /** When the output directory ends with `/` (and has no `//`), and no field of the file name
      contains `/`, the driver's deletion of `baseDir + "/"` finds nothing: the path it stores as
      relative is the absolute path. */
  lemma TrailingSlashKeepsAbsolutePath(baseDir: string, chrom: string, pos: int, ref: string, alt: string,
                                       hetOrHom: string, sampleIndex: nat, suffix: string)
    requires baseDir != [] && baseDir[|baseDir| - 1] == '/' && NoDoubleSlash(baseDir)
    requires '/' !in chrom && '/' !in ref && '/' !in alt && '/' !in hetOrHom && '/' !in suffix
    ensures var full := ReassembledBamPath(baseDir, chrom, pos, ref, alt, hetOrHom, sampleIndex, suffix);
      RelativeBamPathAsWritten(baseDir, full) == full && StartsWith(full, baseDir)
  {
    var sub := Subdir(pos);
    var file := BamFileName(chrom, pos, ref, alt, hetOrHom, sampleIndex, suffix);
    var full := ReassembledBamPath(baseDir, chrom, pos, ref, alt, hetOrHom, sampleIndex, suffix);
    RelativeBamPathRoundTrip(baseDir, chrom, pos, ref, alt, hetOrHom, sampleIndex, suffix);
    assert full == baseDir + (sub + "/" + file);
    SubdirNoDoubleSlash(pos);
    FileNameHasNoSlash(chrom, pos, ref, alt, hetOrHom, sampleIndex, suffix);
    assert NoDoubleSlash(file);
    assert NoDoubleSlash("/");
    NoDoubleSlashConcat(sub, "/");
    NoDoubleSlashConcat(sub + "/", file);
    NoDoubleSlashConcat(baseDir, sub + "/" + file);
    NoDoubleSlashExcludes(full, baseDir + "/");
    ReplaceAbsent(full, baseDir + "/", "");
    assert full[..|baseDir|] == baseDir;
  }

  lemma SubdirNoDoubleSlash(pos: int)
    ensures NoDoubleSlash(Subdir(pos))
  {
    var sub := Subdir(pos);
    assert IsDigit(sub[0]) && IsDigit(sub[1]) && IsDigit(sub[3]);
  }

  lemma IntToStringNoSlash(i: int)
    ensures '/' !in IntToString(i)
  {
    var t := IntToString(i);
    forall k | 0 <= k < |t| ensures t[k] != '/' {
      if i < 0 && k > 0 {
        assert t[k] == NatToString(-i)[k - 1];
      }
    }
  }

  /** A file name built from slash-free fields holds no `/`. */
  lemma FileNameHasNoSlash(chrom: string, pos: int, ref: string, alt: string, hetOrHom: string, sampleIndex: nat, suffix: string)
    requires '/' !in chrom && '/' !in ref && '/' !in alt && '/' !in hetOrHom && '/' !in suffix
    ensures '/' !in BamFileName(chrom, pos, ref, alt, hetOrHom, sampleIndex, suffix)
  {
    IntToStringNoSlash(pos);
    assert '/' !in Prefix(ref, MaxAlleleLength) && '/' !in Prefix(alt, MaxAlleleLength);
    assert '/' !in NatToString(sampleIndex);
  }

  /** With the default output directory, every path the driver stores as relative starts with `/`. */
  lemma DefaultDirStoresAbsolutePath(chrom: string, pos: int, ref: string, alt: string,
                                     hetOrHom: string, sampleIndex: nat, suffix: string)
    requires '/' !in chrom && '/' !in ref && '/' !in alt && '/' !in hetOrHom && '/' !in suffix
    ensures var full := ReassembledBamPath(DefaultBamOutputDir, chrom, pos, ref, alt, hetOrHom, sampleIndex, suffix);
      var stored := RelativeBamPathAsWritten(DefaultBamOutputDir, full);
      StartsWith(stored, "/") && stored != RelativeBamPath(chrom, pos, ref, alt, hetOrHom, sampleIndex, suffix)
  {
    var d := DefaultBamOutputDir;
    assert NoDoubleSlash(d) by {
      forall i | 0 <= i < |d| - 1 ensures d[i] != '/' || d[i + 1] != '/' {
      }
    }
    TrailingSlashKeepsAbsolutePath(d, chrom, pos, ref, alt, hetOrHom, sampleIndex, suffix);
    RelativeBamPathRoundTrip(d, chrom, pos, ref, alt, hetOrHom, sampleIndex, suffix);
  }
}
