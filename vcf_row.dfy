/** The multi-sample VCF row decoder: `create_vcf_row_parser` checks the header line once and
    returns `vcf_row_parser`, which turns one tab-separated row into
    (chrom, pos, ref, alt alleles, sample id -> genotype call). */
module VcfRow {
  import opened Wrappers
  import opened Text

  /** The only per-sample layout the decoder accepts. */
  const ExpectedFormat: string := "GT:AD:DP:GQ:PL"
  /** The GT value of a sample without a call. */
  const NoCallGt: string := "./."

  /** Python's `int()` and `float()`, kept abstract: each says which strings it reads and as what. */
  datatype Numerals = Numerals(toInt: string -> Option<int>, toFloat: string -> Option<real>)

  /** One sample's call: `(None, None, None, None)` or `(gt_ref, gt_alt, GQ, DP)`. */
  datatype Call = NoCall | Called(gtRef: int, gtAlt: int, gq: real, dp: real)

  /** A Python dict from sample id to call: `ids` lists the keys in insertion order. */
  datatype GenotypeMap = GenotypeMap(ids: seq<string>, calls: map<string, Call>)

  predicate Distinct(s: seq<string>)
  {
    forall i, j :: 0 <= i < j < |s| ==> s[i] != s[j]
  }

  predicate WellFormed(g: GenotypeMap)
  {
    && Distinct(g.ids)
    && (forall k :: k in g.calls ==> k in g.ids)
    && (forall i :: 0 <= i < |g.ids| ==> g.ids[i] in g.calls)
  }

  /** `d[k] = v`: a new key goes to the end, an existing key keeps its place and takes the new value. */
  function Put(g: GenotypeMap, k: string, v: Call): GenotypeMap
  {
    if k in g.calls then g.(calls := g.calls[k := v])
    else GenotypeMap(g.ids + [k], g.calls[k := v])
  }

  /** Assigning into a well-formed dict keeps it well formed. */
  lemma PutWellFormed(g: GenotypeMap, k: string, v: Call)
    requires WellFormed(g)
    ensures WellFormed(Put(g, k, v))
  {
    if k !in g.calls {
      var ids := g.ids + [k];
      assert forall i :: 0 <= i < |g.ids| ==> ids[i] == g.ids[i];
    }
  }

  /** The decoder that `create_vcf_row_parser` returns: the header's sample columns and the
      positions of GT, GQ and DP within a sample's `:`-separated values. */
  datatype RowParser = RowParser(sampleIds: seq<string>, gtIdx: nat, gqIdx: nat, dpIdx: nat)

  datatype HeaderError = HeaderMismatch(fields: seq<string>)

  /** Each way a row can make the decoder raise. */
  datatype RowError =
    | MissingColumns(count: nat)
    | FormatMismatch(format: string)
    | SampleCountMismatch(headerSamples: nat, rowSamples: nat)
    | MissingSubfield(sample: string, genotype: string)
    | MalformedGt(sample: string, gt: string)
    | NonIntegerAllele(sample: string, gt: string)
    | AlleleIndexOutOfRange(sample: string, gt: string)

  /** What a decoded row holds: `pos` stays the text of column 1. */
  datatype Row = Row(chrom: string, pos: string, ref: string, alts: seq<string>, genotypes: GenotypeMap)

  /** `header_line.strip("\n").split("\t")`. */
  function HeaderFields(headerLine: string): seq<string>
  {
    Split(StripNewlines(headerLine), '\t')
  }

  /** The fixed VCF column layout the decoder insists on. */
  predicate HeaderLayoutOk(f: seq<string>)
  {
    |f| >= 9 && f[0] == "#CHROM" && f[1] == "POS" && f[3] == "REF" && f[4] == "ALT" && f[8] == "FORMAT"
  }

  /** `list.index(x)`: the first position of `x`, if any. */
  function IndexOf(s: seq<string>, x: string): (r: Option<nat>)
    ensures r.Some? ==> r.value < |s| && s[r.value] == x && forall k :: 0 <= k < r.value ==> s[k] != x
    ensures r.None? ==> forall k :: 0 <= k < |s| ==> s[k] != x
  {
    if s == [] then None
    else if s[0] == x then Some(0)
    else match IndexOf(s[1..], x)
      case None => None
      case Some(i) => Some(i + 1)
  }

  /** The layout string splits into its five subfield names. */
  lemma FormatFields()
    ensures Split(ExpectedFormat, ':') == ["GT", "AD", "DP", "GQ", "PL"]
  {
    var f := ["GT", "AD", "DP", "GQ", "PL"];
    assert Join(f, ':') == ExpectedFormat by {
      assert f[1..] == ["AD", "DP", "GQ", "PL"];
      assert f[2..] == ["DP", "GQ", "PL"];
      assert f[3..] == ["GQ", "PL"];
      assert f[4..] == ["PL"];
      assert Join(f[4..], ':') == "PL";
      assert Join(f[3..], ':') == "GQ:PL";
      assert Join(f[2..], ':') == "DP:GQ:PL";
      assert Join(f[1..], ':') == "AD:DP:GQ:PL";
    }
    forall i | 0 <= i < |f| ensures ':' !in f[i] {
      assert i == 0 || i == 1 || i == 2 || i == 3 || i == 4;
    }
    SplitJoin(f, ':');
  }

  /** Resolving GT, DP and GQ once against `GT:AD:DP:GQ:PL` gives 0, 2 and 3. */
  lemma FormatPositions(layout: seq<string>)
    requires layout == ["GT", "AD", "DP", "GQ", "PL"]
    ensures IndexOf(layout, "GT") == Some(0)
    ensures IndexOf(layout, "DP") == Some(2)
    ensures IndexOf(layout, "GQ") == Some(3)
  {
    var f := layout;
    assert IndexOf(f[3..], "GQ") == Some(0);
    assert IndexOf(f[2..], "DP") == Some(0);
    assert IndexOf(f[2..], "GQ") == Some(1);
    assert IndexOf(f[1..], "DP") == Some(1);
  }

  /** The header's sample ids that the sample table does not know, in header order. */
  function UnknownIds(ids: seq<string>, valid: set<string>): (r: seq<string>)
  {
    if ids == [] then []
    else UnknownIds(ids[..|ids| - 1], valid) + (if ids[|ids| - 1] in valid then [] else [ids[|ids| - 1]])
  }

  /** The warning list names exactly the unknown header ids. */
  lemma {:induction false} UnknownIdsExact(ids: seq<string>, valid: set<string>, x: string)
    ensures x in UnknownIds(ids, valid) <==> x in ids && x !in valid
  {
    if ids != [] {
      var init := ids[..|ids| - 1];
      UnknownIdsExact(init, valid, x);
      assert ids == init + [ids[|ids| - 1]];
    }
  }

  /** `create_vcf_row_parser`: check the header layout, report (without failing) the header
      sample ids that are not in `validIds`, and resolve the subfield positions once. */
  method CreateRowParser(headerLine: string, validIds: set<string>)
    returns (r: Result<RowParser, HeaderError>, unknown: seq<string>)
    ensures r.Ok? <==> HeaderLayoutOk(HeaderFields(headerLine))
    ensures r.Ok? ==> r.value == RowParser(HeaderFields(headerLine)[9..], 0, 3, 2)
    ensures r.Ok? ==> unknown == UnknownIds(HeaderFields(headerLine)[9..], validIds)
    ensures r.Err? ==> r.error == HeaderMismatch(HeaderFields(headerLine)) && unknown == []
  {
    var fields := HeaderFields(headerLine);
    unknown := [];
    if !HeaderLayoutOk(fields) {
      return Err(HeaderMismatch(fields)), unknown;
    }
    var sampleIds := fields[9..];
    for i := 0 to |sampleIds|
      invariant unknown == UnknownIds(sampleIds[..i], validIds)
    {
      assert sampleIds[..i + 1][..i] == sampleIds[..i];
      if sampleIds[i] !in validIds {
        unknown := unknown + [sampleIds[i]];
      }
    }
    assert sampleIds[..|sampleIds|] == sampleIds;
    var layout := Split(ExpectedFormat, ':');
    FormatFields();
    FormatPositions(layout);
    var gt := IndexOf(layout, "GT").value;
    var gq := IndexOf(layout, "GQ").value;
    var dp := IndexOf(layout, "DP").value;
    r := Ok(RowParser(sampleIds, gt, gq, dp));
  }

  /** When a called sample column is accepted: GT splits on `/` into exactly two integers, neither
      above the number of ALT alleles, GQ is present, and DP is present whenever GQ reads as a
      number. */
  predicate CalledGtAccepted(p: RowParser, nums: Numerals, values: seq<string>, numAlts: nat)
    requires p.gtIdx < |values|
  {
    var halves := Split(values[p.gtIdx], '/');
    && |halves| == 2
    && nums.toInt(halves[0]).Some? && nums.toInt(halves[1]).Some?
    && nums.toInt(halves[0]).value <= numAlts && nums.toInt(halves[1]).value <= numAlts
    && p.gqIdx < |values|
    && (nums.toFloat(values[p.gqIdx]).Some? ==> p.dpIdx < |values|)
  }

  /** One sample column of a row decoded on its own. A `./.` GT is a no-call; any other GT must
      split on `/` into two integers no larger than the number of ALT alleles; GQ or DP that do
      not read as numbers degrade both to 0 instead of failing the row. */
  function DecodeGenotype(p: RowParser, nums: Numerals, sample: string, genotype: string, numAlts: nat)
    : (r: Result<Call, RowError>)
    ensures p.gtIdx < |Split(genotype, ':')| && Split(genotype, ':')[p.gtIdx] == NoCallGt ==> r == Ok(NoCall)
    ensures p.gtIdx < |Split(genotype, ':')| && Split(genotype, ':')[p.gtIdx] != NoCallGt ==>
              (r.Ok? <==> CalledGtAccepted(p, nums, Split(genotype, ':'), numAlts))
    ensures r.Ok? && r.value.Called? ==> r.value.gtRef <= numAlts && r.value.gtAlt <= numAlts
    ensures r.Ok? ==> p.gtIdx < |Split(genotype, ':')|
    ensures r.Ok? ==> (r.value.NoCall? <==> Split(genotype, ':')[p.gtIdx] == NoCallGt)
    ensures r.Ok? && r.value.Called? ==>
              var gt := Split(Split(genotype, ':')[p.gtIdx], '/');
              |gt| == 2 && nums.toInt(gt[0]) == Some(r.value.gtRef) && nums.toInt(gt[1]) == Some(r.value.gtAlt)
    ensures r.Ok? && r.value.Called? ==>
              var values := Split(genotype, ':');
              p.gqIdx < |values| &&
              (nums.toFloat(values[p.gqIdx]).None? || (p.dpIdx < |values| && nums.toFloat(values[p.dpIdx]).None?) ==>
                 r.value.gq == 0.0 && r.value.dp == 0.0)
    ensures r.Ok? && r.value.Called? ==>
              var values := Split(genotype, ':');
              (p.gqIdx < |values| && p.dpIdx < |values| &&
               nums.toFloat(values[p.gqIdx]).Some? && nums.toFloat(values[p.dpIdx]).Some? ==>
                 r.value.gq == nums.toFloat(values[p.gqIdx]).value && r.value.dp == nums.toFloat(values[p.dpIdx]).value)
  {
    var values := Split(genotype, ':');
    if p.gtIdx >= |values| then Err(MissingSubfield(sample, genotype))
    else
      var gt := values[p.gtIdx];
      if gt == NoCallGt then Ok(NoCall)
      else
        var halves := Split(gt, '/');
        if |halves| != 2 then Err(MalformedGt(sample, gt))
        else
          var refIndex := nums.toInt(halves[0]);
          var altIndex := nums.toInt(halves[1]);
          if refIndex.None? || altIndex.None? then Err(NonIntegerAllele(sample, gt))
          else
            var gtRef, gtAlt := refIndex.value, altIndex.value;
            if !(gtRef <= numAlts && gtAlt <= numAlts) then Err(AlleleIndexOutOfRange(sample, gt))
            else if p.gqIdx >= |values| then Err(MissingSubfield(sample, genotype))
            else match nums.toFloat(values[p.gqIdx])
              case None => Ok(Called(gtRef, gtAlt, 0.0, 0.0))
              case Some(gq) =>
                if p.dpIdx >= |values| then Err(MissingSubfield(sample, genotype))
                else match nums.toFloat(values[p.dpIdx])
                  case None => Ok(Called(gtRef, gtAlt, 0.0, 0.0))
                  case Some(dp) => Ok(Called(gtRef, gtAlt, gq, dp))
  }

  /** The per-column decoding step of a row whose ALT column holds `numAlts` alleles. */
  function ColumnDecoder(p: RowParser, nums: Numerals, numAlts: nat): (string, string) -> Result<Call, RowError>
  {
    (sample, genotype) => DecodeGenotype(p, nums, sample, genotype, numAlts)
  }

  /** The genotype dict after the decoding loop has consumed the first `n` sample columns,
      or the error of the first column that failed. */
  function DecodeColumns(decode: (string, string) -> Result<Call, RowError>, ids: seq<string>, genotypes: seq<string>, n: nat)
    : Result<GenotypeMap, RowError>
    requires |genotypes| == |ids| && n <= |genotypes|
  {
    if n == 0 then Ok(GenotypeMap([], map[]))
    else match DecodeColumns(decode, ids, genotypes, n - 1)
      case Err(e) => Err(e)
      case Ok(g) =>
        match decode(ids[n - 1], genotypes[n - 1])
          case Err(e) => Err(e)
          case Ok(c) => Ok(Put(g, ids[n - 1], c))
  }

  /** The decoded row, or the first error the row raises. */
  function DecodeRow(p: RowParser, nums: Numerals, fields: seq<string>): Result<Row, RowError>
  {
    if |fields| < 9 then Err(MissingColumns(|fields|))
    else if fields[8] != ExpectedFormat then Err(FormatMismatch(fields[8]))
    else if |fields| - 9 != |p.sampleIds| then Err(SampleCountMismatch(|p.sampleIds|, |fields| - 9))
    else
      var alts := Split(fields[4], ',');
      match DecodeColumns(ColumnDecoder(p, nums, |alts|), p.sampleIds, fields[9..], |fields| - 9)
        case Err(e) => Err(e)
        case Ok(g) => Ok(Row(fields[0], fields[1], fields[3], alts, g))
  }

  /** Once a sample column has failed, the whole row fails with that column's error. */
  lemma {:induction false} ErrorPersists(decode: (string, string) -> Result<Call, RowError>, ids: seq<string>, genotypes: seq<string>, k: nat, n: nat)
    requires |genotypes| == |ids| && k <= n <= |genotypes|
    requires DecodeColumns(decode, ids, genotypes, k).Err?
    ensures DecodeColumns(decode, ids, genotypes, n) == DecodeColumns(decode, ids, genotypes, k)
    decreases n - k
  {
    if k < n {
      ErrorPersists(decode, ids, genotypes, k, n - 1);
    }
  }

  /** The sample-column loop of `vcf_row_parser`: decode each column in turn and store it
      under its sample id, stopping at the first column that raises. */
  method FillGenotypes(decode: (string, string) -> Result<Call, RowError>, ids: seq<string>, genotypes: seq<string>)
    returns (r: Result<GenotypeMap, RowError>)
    requires |genotypes| == |ids|
    ensures r == DecodeColumns(decode, ids, genotypes, |genotypes|)
  {
    var sampleToGenotype := GenotypeMap([], map[]);
    for i := 0 to |genotypes|
      invariant DecodeColumns(decode, ids, genotypes, i) == Ok(sampleToGenotype)
    {
      var call := decode(ids[i], genotypes[i]);
      if call.Err? {
        ErrorPersists(decode, ids, genotypes, i + 1, |genotypes|);
        return Err(call.error);
      }
      sampleToGenotype := Put(sampleToGenotype, ids[i], call.value);
    }
    r := Ok(sampleToGenotype);
  }

  /** `vcf_row_parser`: check the column count, the FORMAT column and the number of sample
      columns, then fill the sample id -> call dict one sample column at a time. */
  method ParseRow(p: RowParser, nums: Numerals, fields: seq<string>) returns (r: Result<Row, RowError>)
    ensures r == DecodeRow(p, nums, fields)
  {
    if |fields| < 9 {
      return Err(MissingColumns(|fields|));
    }
    var chrom, pos, ref, alts := fields[0], fields[1], fields[3], Split(fields[4], ',');
    if fields[8] != ExpectedFormat {
      return Err(FormatMismatch(fields[8]));
    }
    var genotypes := fields[9..];
    if |p.sampleIds| != |genotypes| {
      return Err(SampleCountMismatch(|p.sampleIds|, |genotypes|));
    }
    var decoded := FillGenotypes(ColumnDecoder(p, nums, |alts|), p.sampleIds, genotypes);
    if decoded.Err? {
      return Err(decoded.error);
    }
    var sampleToGenotype := decoded.value;
    r := Ok(Row(chrom, pos, ref, alts, sampleToGenotype));
  }

  /** No later column of the first `n` carries the same sample id as column `i`. */
  predicate LastOccurrence(ids: seq<string>, i: nat, n: nat)
    requires i < n <= |ids|
  {
    forall j :: i < j < n ==> ids[j] != ids[i]
  }

  /** Every called genotype in the dict has allele indices within the ALT allele count. */
  predicate AllelesInRange(g: GenotypeMap, numAlts: nat)
  {
    forall k :: k in g.calls && g.calls[k].Called? ==> g.calls[k].gtRef <= numAlts && g.calls[k].gtAlt <= numAlts
  }

  /** The first `n` columns decode exactly when each of them decodes on its own. */
  lemma {:induction false} DecodeColumnsOk(decode: (string, string) -> Result<Call, RowError>, ids: seq<string>, genotypes: seq<string>, n: nat)
    requires |genotypes| == |ids| && n <= |genotypes|
    ensures DecodeColumns(decode, ids, genotypes, n).Ok? <==> forall i :: 0 <= i < n ==> decode(ids[i], genotypes[i]).Ok?
  {
    if n > 0 {
      DecodeColumnsOk(decode, ids, genotypes, n - 1);
    }
  }

  /** The dict built from the first `n` columns is well formed and its keys are exactly their sample ids. */
  lemma {:induction false} DecodeColumnsKeys(decode: (string, string) -> Result<Call, RowError>, ids: seq<string>, genotypes: seq<string>, n: nat)
    requires |genotypes| == |ids| && n <= |genotypes|
    requires DecodeColumns(decode, ids, genotypes, n).Ok?
    ensures var g := DecodeColumns(decode, ids, genotypes, n).value;
      WellFormed(g) && forall k :: k in g.calls <==> k in ids[..n]
  {
    if n > 0 {
      DecodeColumnsKeys(decode, ids, genotypes, n - 1);
      var g0 := DecodeColumns(decode, ids, genotypes, n - 1).value;
      var c := decode(ids[n - 1], genotypes[n - 1]).value;
      PutWellFormed(g0, ids[n - 1], c);
      assert ids[..n] == ids[..n - 1] + [ids[n - 1]];
    }
  }

  /** With distinct sample ids the dict's keys come out in column order. */
  lemma {:induction false} DecodeColumnsOrder(decode: (string, string) -> Result<Call, RowError>, ids: seq<string>, genotypes: seq<string>, n: nat)
    requires |genotypes| == |ids| && n <= |genotypes|
    requires DecodeColumns(decode, ids, genotypes, n).Ok?
    requires Distinct(ids[..n])
    ensures DecodeColumns(decode, ids, genotypes, n).value.ids == ids[..n]
  {
    if n > 0 {
      assert Distinct(ids[..n - 1]) by {
        forall a, b | 0 <= a < b < n - 1 ensures ids[a] != ids[b] {
          assert ids[..n][a] != ids[..n][b];
        }
      }
      DecodeColumnsOrder(decode, ids, genotypes, n - 1);
      DecodeColumnsKeys(decode, ids, genotypes, n - 1);
      var g0 := DecodeColumns(decode, ids, genotypes, n - 1).value;
      forall a | 0 <= a < n - 1 ensures ids[a] != ids[n - 1] {
        assert ids[..n][a] != ids[..n][n - 1];
      }
      assert ids[n - 1] !in g0.calls;
      assert ids[..n] == ids[..n - 1] + [ids[n - 1]];
    }
  }

  /** Each sample id holds the call decoded from the last column that carries it. */
  lemma {:induction false} DecodeColumnsValues(decode: (string, string) -> Result<Call, RowError>, ids: seq<string>, genotypes: seq<string>, n: nat)
    requires |genotypes| == |ids| && n <= |genotypes|
    requires DecodeColumns(decode, ids, genotypes, n).Ok?
    ensures var g := DecodeColumns(decode, ids, genotypes, n).value;
      forall i :: 0 <= i < n && LastOccurrence(ids, i, n) ==>
        decode(ids[i], genotypes[i]).Ok? && ids[i] in g.calls && g.calls[ids[i]] == decode(ids[i], genotypes[i]).value
  {
    if n > 0 {
      DecodeColumnsValues(decode, ids, genotypes, n - 1);
      var g0 := DecodeColumns(decode, ids, genotypes, n - 1).value;
      var c := decode(ids[n - 1], genotypes[n - 1]).value;
      var g := DecodeColumns(decode, ids, genotypes, n).value;
      assert g.calls == g0.calls[ids[n - 1] := c];
      forall i | 0 <= i < n && LastOccurrence(ids, i, n)
        ensures decode(ids[i], genotypes[i]).Ok? && ids[i] in g.calls && g.calls[ids[i]] == decode(ids[i], genotypes[i]).value
      {
        if i < n - 1 {
          assert ids[n - 1] != ids[i];
          assert LastOccurrence(ids, i, n - 1);
        }
      }
    }
  }

  /** The column a sample id's dict entry comes from: its last column. */
  lemma LastOccurrenceExists(ids: seq<string>, k: string) returns (i: nat)
    requires k in ids
    ensures i < |ids| && ids[i] == k && LastOccurrence(ids, i, |ids|)
  {
    i :| 0 <= i < |ids| && ids[i] == k;
    while exists j :: i < j < |ids| && ids[j] == k
      invariant i < |ids| && ids[i] == k
      decreases |ids| - i
    {
      var j :| i < j < |ids| && ids[j] == k;
      i := j;
    }
  }

  /** A decoded row has passed every row check, keeps CHROM, POS and REF as given, splits ALT on
      commas, and maps every header sample id to the call of its column; called allele indices
      never exceed the number of ALT alleles. */
  lemma DecodeRowSound(p: RowParser, nums: Numerals, fields: seq<string>)
    requires DecodeRow(p, nums, fields).Ok?
    ensures var row := DecodeRow(p, nums, fields).value;
      && |fields| >= 9 && fields[8] == ExpectedFormat && |fields| - 9 == |p.sampleIds|
      && row.chrom == fields[0] && row.pos == fields[1] && row.ref == fields[3]
      && row.alts == Split(fields[4], ',')
      && WellFormed(row.genotypes)
      && (forall k :: k in row.genotypes.calls <==> k in p.sampleIds)
      && (Distinct(p.sampleIds) ==> row.genotypes.ids == p.sampleIds)
      && (forall i :: 0 <= i < |p.sampleIds| && LastOccurrence(p.sampleIds, i, |p.sampleIds|) ==>
            var c := DecodeGenotype(p, nums, p.sampleIds[i], fields[9 + i], |row.alts|);
            c.Ok? && row.genotypes.calls[p.sampleIds[i]] == c.value)
      && AllelesInRange(row.genotypes, |row.alts|)
  {
    var n := |p.sampleIds|;
    var alts := Split(fields[4], ',');
    var decode := ColumnDecoder(p, nums, |alts|);
    var tokens := fields[9..];
    DecodeColumnsKeys(decode, p.sampleIds, tokens, n);
    if Distinct(p.sampleIds) {
      assert p.sampleIds[..n] == p.sampleIds;
      DecodeColumnsOrder(decode, p.sampleIds, tokens, n);
    }
    assert p.sampleIds[..n] == p.sampleIds;
    DecodeRowValues(p, nums, fields);
    var g := DecodeRow(p, nums, fields).value.genotypes;
    forall k | k in g.calls && g.calls[k].Called?
      ensures g.calls[k].gtRef <= |alts| && g.calls[k].gtAlt <= |alts|
    {
      var i := LastOccurrenceExists(p.sampleIds, k);
    }
  }

  /** Each header sample id holds the call decoded from its last column. */
  lemma DecodeRowValues(p: RowParser, nums: Numerals, fields: seq<string>)
    requires DecodeRow(p, nums, fields).Ok?
    ensures |fields| >= 9 && |fields| - 9 == |p.sampleIds|
    ensures var row := DecodeRow(p, nums, fields).value;
      forall i :: 0 <= i < |p.sampleIds| && LastOccurrence(p.sampleIds, i, |p.sampleIds|) ==>
        var c := DecodeGenotype(p, nums, p.sampleIds[i], fields[9 + i], |row.alts|);
        c.Ok? && p.sampleIds[i] in row.genotypes.calls && row.genotypes.calls[p.sampleIds[i]] == c.value
  {
    var n := |p.sampleIds|;
    var alts := Split(fields[4], ',');
    var decode := ColumnDecoder(p, nums, |alts|);
    var tokens := fields[9..];
    DecodeColumnsValues(decode, p.sampleIds, tokens, n);
    forall i | 0 <= i < n && LastOccurrence(p.sampleIds, i, n)
      ensures decode(p.sampleIds[i], tokens[i]) == DecodeGenotype(p, nums, p.sampleIds[i], fields[9 + i], |alts|)
    {
      assert tokens[i] == fields[9 + i];
    }
  }

  /** A row is rejected exactly when it is too short, its FORMAT column is not `GT:AD:DP:GQ:PL`,
      its sample column count differs from the header's, or one of its sample columns fails. */
  lemma DecodeRowOkIff(p: RowParser, nums: Numerals, fields: seq<string>)
    ensures DecodeRow(p, nums, fields).Ok? <==>
      && |fields| >= 9 && fields[8] == ExpectedFormat && |fields| - 9 == |p.sampleIds|
      && forall i :: 0 <= i < |p.sampleIds| ==>
           DecodeGenotype(p, nums, p.sampleIds[i], fields[9 + i], |Split(fields[4], ',')|).Ok?
  {
    if |fields| >= 9 && fields[8] == ExpectedFormat && |fields| - 9 == |p.sampleIds| {
      var decode := ColumnDecoder(p, nums, |Split(fields[4], ',')|);
      DecodeColumnsOk(decode, p.sampleIds, fields[9..], |p.sampleIds|);
    }
  }
}
