/** `choose_samples` and its evidence locator `get_bam_path`: pick, for one alt allele, up to five
    het or hom-alt samples with the highest GQ whose BAM file can be found. */
module SampleSelector {
  import opened Wrappers
  import opened Text
  import opened VcfRow

  /** At most this many samples are shown per het or hom-alt variant. */
  const MaxSamplesToShow: nat := 5
  /** The adjusted-genotype floor: a sample needs DP >= 10 and GQ >= 20. */
  const MinDepth: real := 10.0
  const MinGq: real := 20.0

  datatype Zygosity = Het | Hom

  /** The `het_or_hom` argument: only "het" and "hom" are accepted. */
  function ParseZygosity(hetOrHom: string): (z: Option<Zygosity>)
    ensures z == Some(Het) <==> hetOrHom == "het"
    ensures z == Some(Hom) <==> hetOrHom == "hom"
  {
    if hetOrHom == "het" then Some(Het) else if hetOrHom == "hom" then Some(Hom) else None
  }

  /** One row of the sample info table: the BAM path, the original gVCF path and the Include flag. */
  datatype SampleInfo = SampleInfo(bam: string, gvcf: string, included: bool)
  type SampleTable = map<string, SampleInfo>

  datatype SelectError = UnexpectedClass(hetOrHom: string) | UnknownSample(sample: string)

  /** An entry of `relevant_samples`. */
  datatype Candidate = Candidate(sample: string, gq: real)
  /** A `(bam path, gvcf path)` pair of the result. */
  datatype BamPair = BamPair(bam: string, gvcf: string)
  /** A chosen sample together with what the result records for it. */
  datatype Chosen = Chosen(sample: string, gq: real, bam: string, gvcf: string)

  /** The genotype-class rule. Het: two different allele indices, one of them the target allele,
      so a 1/2 call is het for allele 1 and for allele 2. Hom: both indices equal the target. */
  predicate MatchesClass(z: Zygosity, altIndex: int, c: Call)
    requires c.Called?
  {
    match z
    case Het => c.gtRef != c.gtAlt && (c.gtRef == altIndex || c.gtAlt == altIndex)
    case Hom => c.gtRef == c.gtAlt && c.gtAlt == altIndex
  }

  /** A call that is not a no-call, is of the requested class and passes the DP/GQ floor. */
  predicate Qualifies(z: Zygosity, altIndex: int, c: Call)
  {
    c.Called? && MatchesClass(z, altIndex, c) && !(c.dp < MinDepth || c.gq < MinGq)
  }

  /** The filtering step for one genotype-map entry: a qualifying sample must be in the info
      table (a missing one raises), and is kept only when its Include flag is set. */
  function Admit(z: Zygosity, altIndex: int, sample: string, c: Call, table: SampleTable, acc: seq<Candidate>)
    : Result<seq<Candidate>, SelectError>
  {
    if !Qualifies(z, altIndex, c) then Ok(acc)
    else if sample !in table then Err(UnknownSample(sample))
    else if table[sample].included then Ok(acc + [Candidate(sample, c.gq)])
    else Ok(acc)
  }

  /** `relevant_samples` after the filtering loop has visited the first `n` entries of the map. */
  function Relevant(z: Zygosity, altIndex: int, g: GenotypeMap, table: SampleTable, n: nat)
    : Result<seq<Candidate>, SelectError>
    requires WellFormed(g) && n <= |g.ids|
  {
    if n == 0 then Ok([])
    else match Relevant(z, altIndex, g, table, n - 1)
      case Err(e) => Err(e)
      case Ok(acc) => Admit(z, altIndex, g.ids[n - 1], g.calls[g.ids[n - 1]], table, acc)
  }

  /** Stable insertion of `c` into a list ranked by descending GQ: it goes before the first
      entry whose GQ is not larger, so it stays ahead of later entries with an equal GQ. */
  function Insert(c: Candidate, ranked: seq<Candidate>): (r: seq<Candidate>)
    ensures |r| == |ranked| + 1
    ensures multiset(r) == multiset(ranked) + multiset{c}
  {
    if ranked == [] || ranked[0].gq <= c.gq then [c] + ranked
    else
      assert ranked == [ranked[0]] + ranked[1..];
      [ranked[0]] + Insert(c, ranked[1..])
  }

  /** `relevant_samples.sort(key=lambda s: s["GQ"], reverse=True)`, a stable sort. */
  function Ranked(s: seq<Candidate>): seq<Candidate>
  {
    if s == [] then [] else Insert(s[0], Ranked(s[1..]))
  }

  predicate SortedByGqDesc(s: seq<Candidate>)
  {
    forall i, j :: 0 <= i < j < |s| ==> s[i].gq >= s[j].gq
  }

  /** The entries of `s` whose GQ equals `q`, in their order in `s`. */
  function WithGq(s: seq<Candidate>, q: real): seq<Candidate>
  {
    if s == [] then []
    else (if s[0].gq == q then [s[0]] else []) + WithGq(s[1..], q)
  }

  /** `get_bam_path`'s rewrites for relocated BAMs: the ext_tcga move, `CONT_` -> `CONT`,
      and `re.sub("/v[0-9]{1,2}/", "/current/", path)`. */
  function RelocatedBamPath(raw: string): string
  {
    var moved := if Contains(raw, "/cga/pancan2/picard_bams/ext_tcga")
                 then ReplaceAll(raw, "/cga/pancan2/", "/cga/fh/cga_pancan2/") else raw;
    var renamed := if Contains(moved, "CONT_") then ReplaceAll(moved, "CONT_", "CONT") else moved;
    CurrentVersion(renamed)
  }

  /** Length of a `/v<one or two digits>/` match at the start of `s`, or 0. */
  function VersionSegmentLength(s: string): (m: nat)
    ensures m == 0 || m == 4 || m == 5
    ensures m <= |s|
  {
    if |s| >= 5 && s[0] == '/' && s[1] == 'v' && IsDigit(s[2]) && IsDigit(s[3]) && s[4] == '/' then 5
    else if |s| >= 4 && s[0] == '/' && s[1] == 'v' && IsDigit(s[2]) && s[3] == '/' then 4
    else 0
  }

  /** `re.sub("/v[0-9]{1,2}/", "/current/", s)`: leftmost matches, scanning on after each one. */
  function CurrentVersion(s: string): string
    decreases |s|
  {
    if s == [] then []
    else
      var m := VersionSegmentLength(s);
      if m > 0 then "/current/" + CurrentVersion(s[m..]) else [s[0]] + CurrentVersion(s[1..])
  }

  /** No window of `s` is a `/v<one or two digits>/` segment. */
  predicate Unversioned(s: string)
  {
    forall i :: 0 <= i < |s| ==> VersionSegmentLength(s[i..]) == 0
  }

  /** `get_bam_path`: the rewritten path when the file is readable, otherwise an IOError that
      names the path from the table. `readable` stands for `os.access(path, os.R_OK)`. */
  function GetBamPath(sample: string, table: SampleTable, readable: string -> bool): (r: Result<string, string>)
    requires sample in table
    ensures r.Ok? <==> readable(RelocatedBamPath(table[sample].bam))
    ensures r.Ok? ==> r.value == RelocatedBamPath(table[sample].bam)
  {
    var path := RelocatedBamPath(table[sample].bam);
    if readable(path) then Ok(path) else Err(table[sample].bam)
  }

  predicate AllInTable(cands: seq<Candidate>, table: SampleTable)
  {
    forall i :: 0 <= i < |cands| ==> cands[i].sample in table
  }

  /** What the selection loop does with one sample name: `get_bam_path` followed by the gVCF
      lookup, giving the `(bam, gvcf)` pair it appends, or the IOError's raw path. Every name
      that reaches the loop is in the table (the filtering loop looked it up), so the last
      branch only makes the locator total. */
  function Locator(table: SampleTable, readable: string -> bool): string -> Result<BamPair, string>
  {
    sample => if sample in table then Locate(sample, table, readable) else Err(sample)
  }

  function Locate(sample: string, table: SampleTable, readable: string -> bool): (r: Result<BamPair, string>)
    requires sample in table
    ensures r.Ok? <==> GetBamPath(sample, table, readable).Ok?
    ensures r.Ok? ==> r.value == BamPair(GetBamPath(sample, table, readable).value, table[sample].gvcf)
  {
    match GetBamPath(sample, table, readable)
    case Ok(bam) => Ok(BamPair(bam, table[sample].gvcf))
    case Err(raw) => Err(raw)
  }

  /** For a name in the table, the locator finds exactly the located BAM and the table's gVCF. */
  lemma LocatorFinds(table: SampleTable, readable: string -> bool, sample: string, p: BamPair)
    requires sample in table && Locator(table, readable)(sample) == Ok(p)
    ensures GetBamPath(sample, table, readable) == Ok(p.bam) && p.gvcf == table[sample].gvcf
  {
    assert Locator(table, readable)(sample) == Locate(sample, table, readable);
  }

  /** The greedy loop: take candidates in order, skip those `locate` cannot find, and stop
      after `room` successes. */
  function Pick(cands: seq<Candidate>, room: nat, locate: string -> Result<BamPair, string>): (r: seq<Chosen>)
    ensures |r| <= room
  {
    if cands == [] || room == 0 then []
    else
      var c := cands[0];
      match locate(c.sample)
      case Err(_) => Pick(cands[1..], room, locate)
      case Ok(p) => [Chosen(c.sample, c.gq, p.bam, p.gvcf)] + Pick(cands[1..], room - 1, locate)
  }

  /** Every candidate `locate` finds, in order: the reference for the greedy loop. */
  function Located(cands: seq<Candidate>, locate: string -> Result<BamPair, string>): seq<Chosen>
  {
    if cands == [] then []
    else
      var c := cands[0];
      match locate(c.sample)
      case Err(_) => Located(cands[1..], locate)
      case Ok(p) => [Chosen(c.sample, c.gq, p.bam, p.gvcf)] + Located(cands[1..], locate)
  }

  function Min(a: nat, b: nat): nat { if a <= b then a else b }

  /** What `choose_samples` selects, sample by sample, or the error it raises. */
  function Selection(hetOrHom: string, altIndex: int, g: GenotypeMap, table: SampleTable, readable: string -> bool)
    : Result<seq<Chosen>, SelectError>
    requires WellFormed(g)
  {
    match ParseZygosity(hetOrHom)
    case None => Err(UnexpectedClass(hetOrHom))
    case Some(z) =>
      match Relevant(z, altIndex, g, table, |g.ids|)
      case Err(e) => Err(e)
      case Ok(cands) => Ok(Pick(Ranked(cands), MaxSamplesToShow, Locator(table, readable)))
  }

  /** The `(bam path, gvcf path)` pairs `choose_samples` returns for chosen samples. */
  function Pairs(cs: seq<Chosen>): (r: seq<BamPair>)
    ensures |r| == |cs|
    ensures forall i :: 0 <= i < |cs| ==> r[i] == BamPair(cs[i].bam, cs[i].gvcf)
  {
    seq(|cs|, i requires 0 <= i < |cs| => BamPair(cs[i].bam, cs[i].gvcf))
  }

  lemma {:induction false} RelevantInTable(z: Zygosity, altIndex: int, g: GenotypeMap, table: SampleTable, n: nat)
    requires WellFormed(g) && n <= |g.ids|
    ensures Relevant(z, altIndex, g, table, n).Ok? ==> AllInTable(Relevant(z, altIndex, g, table, n).value, table)
  {
    if n > 0 {
      RelevantInTable(z, altIndex, g, table, n - 1);
    }
  }

  lemma {:induction false} RankedPermutes(s: seq<Candidate>)
    ensures |Ranked(s)| == |s|
    ensures multiset(Ranked(s)) == multiset(s)
  {
    if s != [] {
      RankedPermutes(s[1..]);
      assert s == [s[0]] + s[1..];
    }
  }

  lemma InTablePermutation(a: seq<Candidate>, b: seq<Candidate>, table: SampleTable)
    requires multiset(a) == multiset(b) && AllInTable(a, table)
    ensures AllInTable(b, table)
  {
    forall i | 0 <= i < |b| ensures b[i].sample in table {
      assert b[i] in multiset(a);
      var j :| 0 <= j < |a| && a[j] == b[i];
    }
  }

  /** After the first qualifying sample missing from the table, the filtering loop stays failed. */
  lemma {:induction false} RelevantErrorPersists(z: Zygosity, altIndex: int, g: GenotypeMap, table: SampleTable, k: nat, n: nat)
    requires WellFormed(g) && k <= n <= |g.ids|
    requires Relevant(z, altIndex, g, table, k).Err?
    ensures Relevant(z, altIndex, g, table, n) == Relevant(z, altIndex, g, table, k)
    decreases n - k
  {
    if k < n {
      RelevantErrorPersists(z, altIndex, g, table, k, n - 1);
    }
  }

  /** `choose_samples`: filter the genotype map into `relevant_samples`, sort it by descending GQ,
      then take the located candidates greedily. */
  method ChooseSamples(hetOrHom: string, altIndex: int, g: GenotypeMap, table: SampleTable, readable: string -> bool)
    returns (r: Result<seq<BamPair>, SelectError>)
    requires WellFormed(g)
    ensures r.Ok? <==> Selection(hetOrHom, altIndex, g, table, readable).Ok?
    ensures r.Ok? ==> r.value == Pairs(Selection(hetOrHom, altIndex, g, table, readable).value)
    ensures r.Err? ==> r.error == Selection(hetOrHom, altIndex, g, table, readable).error
  {
    var zygosity := ParseZygosity(hetOrHom);
    if zygosity.None? {
      return Err(UnexpectedClass(hetOrHom));
    }
    var relevant := RelevantSamples(zygosity.value, altIndex, g, table);
    if relevant.Err? {
      return Err(relevant.error);
    }
    var bamsToDisplay := TakeLocated(Ranked(relevant.value), Locator(table, readable));
    r := Ok(bamsToDisplay);
  }

  /** The filtering loop of `choose_samples`: skip no-calls, calls of the wrong class and calls
      under the DP/GQ floor; look up the Include flag of the rest (a sample missing from the
      table raises) and keep `(sample, GQ)` of the included ones, in genotype-map order. */
  method RelevantSamples(z: Zygosity, altIndex: int, g: GenotypeMap, table: SampleTable)
    returns (r: Result<seq<Candidate>, SelectError>)
    requires WellFormed(g)
    ensures r == Relevant(z, altIndex, g, table, |g.ids|)
  {
    var relevant: seq<Candidate> := [];
    for i := 0 to |g.ids|
      invariant Relevant(z, altIndex, g, table, i) == Ok(relevant)
    {
      var sample := g.ids[i];
      var c := g.calls[sample];
      if c.NoCall? {
        continue;
      }
      if z == Het {
        if c.gtRef == c.gtAlt {
          continue;
        }
        if c.gtRef != altIndex && c.gtAlt != altIndex {
          continue;
        }
      } else {
        if c.gtRef != c.gtAlt {
          continue;
        }
        if c.gtAlt != altIndex {
          continue;
        }
      }
      if c.dp < MinDepth || c.gq < MinGq {
        continue;
      }
      if sample !in table {
        RelevantErrorPersists(z, altIndex, g, table, i + 1, |g.ids|);
        return Err(UnknownSample(sample));
      }
      if table[sample].included {
        relevant := relevant + [Candidate(sample, c.gq)];
      }
    }
    r := Ok(relevant);
  }

  /** The selection loop of `choose_samples`: pop the highest-ranked candidate, append its
      `(bam, gvcf)` pair when `locate` finds it and skip it when `get_bam_path` raises, until
      five pairs are chosen or no candidate is left. */
  method TakeLocated(ranked: seq<Candidate>, locate: string -> Result<BamPair, string>)
    returns (bamsToDisplay: seq<BamPair>)
    ensures bamsToDisplay == Pairs(Pick(ranked, MaxSamplesToShow, locate))
  {
    var relevant := ranked;
    ghost var chosen: seq<Chosen> := [];
    ghost var room := MaxSamplesToShow;
    bamsToDisplay := [];
    while relevant != [] && |bamsToDisplay| < MaxSamplesToShow
      invariant room == MaxSamplesToShow - |bamsToDisplay|
      invariant bamsToDisplay == Pairs(chosen)
      invariant Pick(ranked, MaxSamplesToShow, locate) == chosen + Pick(relevant, room, locate)
    {
      var next := relevant[0];
      var found := locate(next.sample);
      PickStep(relevant, room, locate, chosen);
      if found.Ok? {
        ghost var ch := Chosen(next.sample, next.gq, found.value.bam, found.value.gvcf);
        PairsSnoc(chosen, ch);
        bamsToDisplay := bamsToDisplay + [found.value];
        chosen := chosen + [ch];
        room := room - 1;
      }
      relevant := relevant[1..];
    }
  }

  /** One turn of the greedy loop, seen after the samples already chosen: a found head is
      appended to them, a missing one is dropped. */
  lemma PickStep(cands: seq<Candidate>, room: nat, locate: string -> Result<BamPair, string>, before: seq<Chosen>)
    requires cands != [] && room > 0
    ensures var c := cands[0];
      var found := locate(c.sample);
      && (found.Ok? ==>
            before + Pick(cands, room, locate)
            == (before + [Chosen(c.sample, c.gq, found.value.bam, found.value.gvcf)]) + Pick(cands[1..], room - 1, locate))
      && (found.Err? ==> Pick(cands, room, locate) == Pick(cands[1..], room, locate))
  {
    var c := cands[0];
    var found := locate(c.sample);
    if found.Ok? {
      var ch := Chosen(c.sample, c.gq, found.value.bam, found.value.gvcf);
      var later := Pick(cands[1..], room - 1, locate);
      assert Pick(cands, room, locate) == [ch] + later;
      assert before + ([ch] + later) == (before + [ch]) + later;
    }
  }

  lemma PairsSnoc(cs: seq<Chosen>, ch: Chosen)
    ensures Pairs(cs + [ch]) == Pairs(cs) + [BamPair(ch.bam, ch.gvcf)]
  {
    assert |Pairs(cs + [ch])| == |Pairs(cs) + [BamPair(ch.bam, ch.gvcf)]|;
    forall i | 0 <= i < |cs| + 1
      ensures Pairs(cs + [ch])[i] == (Pairs(cs) + [BamPair(ch.bam, ch.gvcf)])[i]
    {
      if i < |cs| {
        assert (cs + [ch])[i] == cs[i];
      }
    }
  }

  /** Inserting below a bound on every GQ stays below it. */
  lemma {:induction false} InsertBounded(c: Candidate, t: seq<Candidate>, top: real)
    requires c.gq <= top && forall k :: 0 <= k < |t| ==> t[k].gq <= top
    ensures forall k :: 0 <= k < |Insert(c, t)| ==> Insert(c, t)[k].gq <= top
  {
    if t != [] && t[0].gq > c.gq {
      InsertBounded(c, t[1..], top);
      assert Insert(c, t) == [t[0]] + Insert(c, t[1..]);
    }
  }

  /** Inserting into a ranked list keeps it ranked. */
  lemma {:induction false} InsertSorted(c: Candidate, t: seq<Candidate>)
    requires SortedByGqDesc(t)
    ensures SortedByGqDesc(Insert(c, t))
  {
    if t == [] || t[0].gq <= c.gq {
      var r := Insert(c, t);
      assert r == [c] + t;
      forall i, j | 0 <= i < j < |r| ensures r[i].gq >= r[j].gq {
        assert r[j] == t[j - 1];
        if i > 0 {
          assert r[i] == t[i - 1];
        } else if j > 1 {
          assert t[0].gq >= t[j - 1].gq;
        }
      }
    } else {
      var tail := t[1..];
      assert SortedByGqDesc(tail) by {
        forall i, j | 0 <= i < j < |tail| ensures tail[i].gq >= tail[j].gq {
          assert tail[i] == t[i + 1] && tail[j] == t[j + 1];
        }
      }
      assert forall k :: 0 <= k < |tail| ==> tail[k].gq <= t[0].gq by {
        forall k | 0 <= k < |tail| ensures tail[k].gq <= t[0].gq {
          assert tail[k] == t[k + 1];
        }
      }
      var rest := Insert(c, tail);
      InsertSorted(c, tail);
      InsertBounded(c, tail, t[0].gq);
      var r := Insert(c, t);
      assert r == [t[0]] + rest;
      forall i, j | 0 <= i < j < |r| ensures r[i].gq >= r[j].gq {
        assert r[j] == rest[j - 1];
        if i > 0 {
          assert r[i] == rest[i - 1];
        }
      }
    }
  }

  /** The sort ranks candidates by non-increasing GQ. */
  lemma {:induction false} RankedSorted(s: seq<Candidate>)
    ensures SortedByGqDesc(Ranked(s))
  {
    if s != [] {
      RankedSorted(s[1..]);
      InsertSorted(s[0], Ranked(s[1..]));
    }
  }

  lemma WithGqCons(x: Candidate, s: seq<Candidate>, q: real)
    ensures WithGq([x] + s, q) == (if x.gq == q then [x] else []) + WithGq(s, q)
  {
    assert ([x] + s)[1..] == s;
  }

  /** Insertion puts `c` ahead of every entry with the same GQ. */
  lemma {:induction false} InsertWithGq(c: Candidate, t: seq<Candidate>, q: real)
    ensures WithGq(Insert(c, t), q) == (if c.gq == q then [c] else []) + WithGq(t, q)
  {
    if t == [] || t[0].gq <= c.gq {
      WithGqCons(c, t, q);
    } else {
      var rest := Insert(c, t[1..]);
      assert Insert(c, t) == [t[0]] + rest;
      InsertWithGq(c, t[1..], q);
      WithGqCons(t[0], rest, q);
      assert t == [t[0]] + t[1..];
      WithGqCons(t[0], t[1..], q);
      if c.gq == q {
        assert WithGq(Insert(c, t), q) == WithGq(rest, q) == [c] + WithGq(t[1..], q);
        assert WithGq(t, q) == WithGq(t[1..], q);
      } else {
        assert WithGq(rest, q) == WithGq(t[1..], q);
      }
    }
  }

  /** The sort is stable: candidates with equal GQ keep their genotype-map order. */
  lemma {:induction false} RankedStable(s: seq<Candidate>, q: real)
    ensures WithGq(Ranked(s), q) == WithGq(s, q)
  {
    if s != [] {
      RankedStable(s[1..], q);
      InsertWithGq(s[0], Ranked(s[1..]), q);
      WithGqCons(s[0], s[1..], q);
      assert s == [s[0]] + s[1..];
    }
  }

  /** The greedy loop returns the first `room` candidates, in order, whose BAM can be located. */
  lemma {:induction false} PickIsPrefixOfLocated(cands: seq<Candidate>, room: nat, locate: string -> Result<BamPair, string>)
    ensures var located := Located(cands, locate);
      Pick(cands, room, locate) == located[..Min(room, |located|)]
  {
    if cands != [] && room > 0 {
      match locate(cands[0].sample)
      case Err(_) =>
        PickIsPrefixOfLocated(cands[1..], room, locate);
      case Ok(_) =>
        PickIsPrefixOfLocated(cands[1..], room - 1, locate);
    }
  }

  /** Each chosen sample is one of the candidates, with its GQ, its located BAM and its gVCF. */
  lemma {:induction false} PickFromCandidates(cands: seq<Candidate>, room: nat, locate: string -> Result<BamPair, string>)
    ensures forall ch :: ch in Pick(cands, room, locate) ==>
      && Candidate(ch.sample, ch.gq) in cands
      && locate(ch.sample) == Ok(BamPair(ch.bam, ch.gvcf))
  {
    if cands != [] && room > 0 {
      PickFromCandidates(cands[1..], room, locate);
      PickFromCandidates(cands[1..], room - 1, locate);
      assert cands == [cands[0]] + cands[1..];
    }
  }

  /** With the table's locator, each chosen sample is a candidate in the table, with the BAM
      `get_bam_path` located and the table's gVCF. */
  lemma PickFromTable(cands: seq<Candidate>, room: nat, table: SampleTable, readable: string -> bool)
    requires AllInTable(cands, table)
    ensures forall ch :: ch in Pick(cands, room, Locator(table, readable)) ==>
      && Candidate(ch.sample, ch.gq) in cands
      && ch.sample in table
      && GetBamPath(ch.sample, table, readable) == Ok(ch.bam)
      && ch.gvcf == table[ch.sample].gvcf
  {
    PickFromCandidates(cands, room, Locator(table, readable));
    forall ch | ch in Pick(cands, room, Locator(table, readable))
      ensures ch.sample in table && GetBamPath(ch.sample, table, readable) == Ok(ch.bam)
      ensures ch.gvcf == table[ch.sample].gvcf
    {
      var k :| 0 <= k < |cands| && cands[k] == Candidate(ch.sample, ch.gq);
      LocatorFinds(table, readable, ch.sample, BamPair(ch.bam, ch.gvcf));
    }
  }

  predicate ChosenByGqDesc(cs: seq<Chosen>)
  {
    forall i, j :: 0 <= i < j < |cs| ==> cs[i].gq >= cs[j].gq
  }

  /** No chosen sample has a higher GQ than every candidate. */
  lemma PickBounded(cands: seq<Candidate>, room: nat, locate: string -> Result<BamPair, string>, top: real)
    requires forall i :: 0 <= i < |cands| ==> cands[i].gq <= top
    ensures forall k :: 0 <= k < |Pick(cands, room, locate)| ==> Pick(cands, room, locate)[k].gq <= top
  {
    var cs := Pick(cands, room, locate);
    PickFromCandidates(cands, room, locate);
    forall k | 0 <= k < |cs| ensures cs[k].gq <= top {
      assert cs[k] in cs;
    }
  }

  /** Taking from a ranked list yields samples in non-increasing GQ. */
  lemma {:induction false} PickSorted(cands: seq<Candidate>, room: nat, locate: string -> Result<BamPair, string>)
    requires SortedByGqDesc(cands)
    ensures ChosenByGqDesc(Pick(cands, room, locate))
  {
    if cands != [] && room > 0 {
      var tail := cands[1..];
      assert SortedByGqDesc(tail) by {
        forall i, j | 0 <= i < j < |tail| ensures tail[i].gq >= tail[j].gq {
          assert tail[i] == cands[i + 1] && tail[j] == cands[j + 1];
        }
      }
      if locate(cands[0].sample).Err? {
        PickSorted(tail, room, locate);
      } else {
        var rest := Pick(tail, room - 1, locate);
        PickSorted(tail, room - 1, locate);
        assert forall i :: 0 <= i < |tail| ==> tail[i] == cands[i + 1];
        PickBounded(tail, room - 1, locate, cands[0].gq);
        var r := Pick(cands, room, locate);
        assert r[1..] == rest;
        forall i, j | 0 <= i < j < |r| ensures r[i].gq >= r[j].gq {
          assert r[j] == rest[j - 1];
          if i > 0 {
            assert r[i] == rest[i - 1];
          }
        }
      }
    }
  }

  /** The filtering loop keeps exactly the qualifying, included samples among the first `n`
      entries, each once and with its own GQ; a qualifying sample is always in the table. */
  lemma {:induction false} RelevantExact(z: Zygosity, altIndex: int, g: GenotypeMap, table: SampleTable, n: nat)
    requires WellFormed(g) && n <= |g.ids|
    requires Relevant(z, altIndex, g, table, n).Ok?
    ensures var cs := Relevant(z, altIndex, g, table, n).value;
      && (forall x :: x in cs ==>
            && x.sample in g.ids[..n]
            && Qualifies(z, altIndex, g.calls[x.sample])
            && x.sample in table && table[x.sample].included
            && x.gq == g.calls[x.sample].gq)
      && (forall i :: 0 <= i < n && Qualifies(z, altIndex, g.calls[g.ids[i]]) ==>
            && g.ids[i] in table
            && (table[g.ids[i]].included ==> Candidate(g.ids[i], g.calls[g.ids[i]].gq) in cs))
      && (forall i, j :: 0 <= i < j < |cs| ==> cs[i].sample != cs[j].sample)
  {
    if n > 0 {
      RelevantExact(z, altIndex, g, table, n - 1);
      var prev := Relevant(z, altIndex, g, table, n - 1).value;
      var cs := Relevant(z, altIndex, g, table, n).value;
      var s := g.ids[n - 1];
      assert g.ids[..n] == g.ids[..n - 1] + [s];
      assert s !in g.ids[..n - 1] by {
        forall a | 0 <= a < n - 1 ensures g.ids[a] != s {
        }
      }
      assert cs == prev || cs == prev + [Candidate(s, g.calls[s].gq)];
      forall i, j | 0 <= i < j < |cs| ensures cs[i].sample != cs[j].sample {
        if j == |prev| {
          assert cs[i] in prev;
        }
      }
    }
  }

  /** The filtering loop fails exactly when a qualifying sample is missing from the table, and
      then it names such a sample. */
  lemma {:induction false} RelevantFails(z: Zygosity, altIndex: int, g: GenotypeMap, table: SampleTable, n: nat)
    requires WellFormed(g) && n <= |g.ids|
    ensures Relevant(z, altIndex, g, table, n).Err? <==>
      exists i :: 0 <= i < n && Qualifies(z, altIndex, g.calls[g.ids[i]]) && g.ids[i] !in table
    ensures Relevant(z, altIndex, g, table, n).Err? ==>
      var e := Relevant(z, altIndex, g, table, n).error;
      e.UnknownSample? && e.sample in g.calls && Qualifies(z, altIndex, g.calls[e.sample]) && e.sample !in table
  {
    if n > 0 {
      RelevantFails(z, altIndex, g, table, n - 1);
      if Relevant(z, altIndex, g, table, n - 1).Ok? {
        if Qualifies(z, altIndex, g.calls[g.ids[n - 1]]) && g.ids[n - 1] !in table {
          assert Relevant(z, altIndex, g, table, n).Err?;
        }
      }
    }
  }

  /** What `choose_samples` returns: at most five samples; each one is a non-no-call of the
      requested class at the target allele with DP >= 10 and GQ >= 20, is marked for inclusion,
      appears once, and comes with its located BAM and its gVCF; they come in non-increasing GQ. */
  lemma SelectionSound(hetOrHom: string, altIndex: int, g: GenotypeMap, table: SampleTable, readable: string -> bool)
    requires WellFormed(g)
    requires Selection(hetOrHom, altIndex, g, table, readable).Ok?
    ensures ParseZygosity(hetOrHom).Some?
    ensures var z := ParseZygosity(hetOrHom).value;
      var cs := Selection(hetOrHom, altIndex, g, table, readable).value;
      && |cs| <= MaxSamplesToShow
      && ChosenByGqDesc(cs)
      && (forall ch :: ch in cs ==>
            && ch.sample in g.calls
            && Qualifies(z, altIndex, g.calls[ch.sample])
            && g.calls[ch.sample].dp >= MinDepth && g.calls[ch.sample].gq >= MinGq
            && ch.sample in table && table[ch.sample].included
            && ch.gq == g.calls[ch.sample].gq
            && GetBamPath(ch.sample, table, readable) == Ok(ch.bam)
            && ch.gvcf == table[ch.sample].gvcf)
  {
    var z := ParseZygosity(hetOrHom).value;
    var cands := Relevant(z, altIndex, g, table, |g.ids|).value;
    ChosenQualify(z, altIndex, g, table, readable);
    RankedSorted(cands);
    PickSorted(Ranked(cands), MaxSamplesToShow, Locator(table, readable));
  }

  /** The per-sample half of `SelectionSound`. */
  lemma ChosenQualify(z: Zygosity, altIndex: int, g: GenotypeMap, table: SampleTable, readable: string -> bool)
    requires WellFormed(g)
    requires Relevant(z, altIndex, g, table, |g.ids|).Ok?
    ensures var cands := Relevant(z, altIndex, g, table, |g.ids|).value;
      forall ch :: ch in Pick(Ranked(cands), MaxSamplesToShow, Locator(table, readable)) ==>
        && ch.sample in g.calls
        && Qualifies(z, altIndex, g.calls[ch.sample])
        && g.calls[ch.sample].dp >= MinDepth && g.calls[ch.sample].gq >= MinGq
        && ch.sample in table && table[ch.sample].included
        && ch.gq == g.calls[ch.sample].gq
        && GetBamPath(ch.sample, table, readable) == Ok(ch.bam)
        && ch.gvcf == table[ch.sample].gvcf
  {
    var cands := Relevant(z, altIndex, g, table, |g.ids|).value;
    var ranked := Ranked(cands);
    RelevantInTable(z, altIndex, g, table, |g.ids|);
    RelevantExact(z, altIndex, g, table, |g.ids|);
    RankedPermutes(cands);
    InTablePermutation(cands, ranked, table);
    PickFromTable(ranked, MaxSamplesToShow, table, readable);
    forall ch | ch in Pick(ranked, MaxSamplesToShow, Locator(table, readable))
      ensures Candidate(ch.sample, ch.gq) in cands
    {
      assert Candidate(ch.sample, ch.gq) in multiset(ranked);
    }
    assert g.ids[..|g.ids|] == g.ids;
  }

  /** The selection is the first five located candidates of the stable GQ ranking of the
      filtered samples: a candidate is skipped only when its BAM is missing or five are taken. */
  lemma SelectionIsTopLocated(hetOrHom: string, altIndex: int, g: GenotypeMap, table: SampleTable, readable: string -> bool)
    requires WellFormed(g)
    requires Selection(hetOrHom, altIndex, g, table, readable).Ok?
    ensures ParseZygosity(hetOrHom).Some?
    ensures Relevant(ParseZygosity(hetOrHom).value, altIndex, g, table, |g.ids|).Ok?
    ensures var cands := Relevant(ParseZygosity(hetOrHom).value, altIndex, g, table, |g.ids|).value;
      && AllInTable(Ranked(cands), table)
      && SortedByGqDesc(Ranked(cands))
      && (forall q :: WithGq(Ranked(cands), q) == WithGq(cands, q))
      && var located := Located(Ranked(cands), Locator(table, readable));
         Selection(hetOrHom, altIndex, g, table, readable).value == located[..Min(MaxSamplesToShow, |located|)]
  {
    var z := ParseZygosity(hetOrHom).value;
    var cands := Relevant(z, altIndex, g, table, |g.ids|).value;
    RelevantInTable(z, altIndex, g, table, |g.ids|);
    RankedPermutes(cands);
    RankedSorted(cands);
    InTablePermutation(cands, Ranked(cands), table);
    forall q ensures WithGq(Ranked(cands), q) == WithGq(cands, q) {
      RankedStable(cands, q);
    }
    PickIsPrefixOfLocated(Ranked(cands), MaxSamplesToShow, Locator(table, readable));
  }

  /** `choose_samples` raises exactly for an unexpected class argument or a qualifying sample
      that is missing from the info table. */
  lemma SelectionFails(hetOrHom: string, altIndex: int, g: GenotypeMap, table: SampleTable, readable: string -> bool)
    requires WellFormed(g)
    ensures Selection(hetOrHom, altIndex, g, table, readable).Err? <==>
      || ParseZygosity(hetOrHom).None?
      || exists i :: 0 <= i < |g.ids| && Qualifies(ParseZygosity(hetOrHom).value, altIndex, g.calls[g.ids[i]]) && g.ids[i] !in table
    ensures Selection(hetOrHom, altIndex, g, table, readable).Err? ==>
      var e := Selection(hetOrHom, altIndex, g, table, readable).error;
      || (e == UnexpectedClass(hetOrHom) && hetOrHom != "het" && hetOrHom != "hom")
      || (e.UnknownSample? && e.sample in g.calls && e.sample !in table
          && Qualifies(ParseZygosity(hetOrHom).value, altIndex, g.calls[e.sample]))
  {
    if ParseZygosity(hetOrHom).Some? {
      RelevantFails(ParseZygosity(hetOrHom).value, altIndex, g, table, |g.ids|);
    }
  }

  /** With no qualifying call among the first `n` entries, nothing is kept. */
  lemma {:induction false} RelevantNone(z: Zygosity, altIndex: int, g: GenotypeMap, table: SampleTable, n: nat)
    requires WellFormed(g) && n <= |g.ids|
    requires forall i :: 0 <= i < n ==> !Qualifies(z, altIndex, g.calls[g.ids[i]])
    ensures Relevant(z, altIndex, g, table, n) == Ok([])
  {
    if n > 0 {
      RelevantNone(z, altIndex, g, table, n - 1);
    }
  }

  /** A site where every sample is a no-call yields an empty selection for either class. */
  lemma AllNoCallsSelectNothing(hetOrHom: string, altIndex: int, g: GenotypeMap, table: SampleTable, readable: string -> bool)
    requires WellFormed(g)
    requires hetOrHom == "het" || hetOrHom == "hom"
    requires forall k :: k in g.calls ==> g.calls[k].NoCall?
    ensures Selection(hetOrHom, altIndex, g, table, readable) == Ok([])
  {
    RelevantNone(ParseZygosity(hetOrHom).value, altIndex, g, table, |g.ids|);
  }

  /** A 1/2 call is het, not hom, for alt allele 1 and for alt allele 2. */
  lemma MultiallelicHetCall(gq: real, dp: real)
    ensures MatchesClass(Het, 1, Called(1, 2, gq, dp)) && MatchesClass(Het, 2, Called(1, 2, gq, dp))
    ensures !MatchesClass(Hom, 1, Called(1, 2, gq, dp)) && !MatchesClass(Hom, 2, Called(1, 2, gq, dp))
  {
  }

  /** A sample whose GQ or DP did not read as a number was decoded with GQ = DP = 0 and so
      never passes the quality floor, whatever its genotype. */
  lemma UnreadableQualityNeverChosen(p: RowParser, nums: Numerals, sample: string, genotype: string, numAlts: nat,
                                     z: Zygosity, altIndex: int)
    requires DecodeGenotype(p, nums, sample, genotype, numAlts).Ok?
    requires DecodeGenotype(p, nums, sample, genotype, numAlts).value.Called?
    requires var values := Split(genotype, ':');
      p.gqIdx < |values| && p.dpIdx < |values| &&
      (nums.toFloat(values[p.gqIdx]).None? || nums.toFloat(values[p.dpIdx]).None?)
    ensures !Qualifies(z, altIndex, DecodeGenotype(p, nums, sample, genotype, numAlts).value)
  {
  }

  /** Without a versioned `/vN/` segment, the version rewrite leaves a path alone. */
  lemma {:induction false} CurrentVersionUnchanged(s: string)
    requires Unversioned(s)
    ensures CurrentVersion(s) == s
    decreases |s|
  {
    if s != [] {
      assert VersionSegmentLength(s[0..]) == 0;
      assert s[0..] == s;
      assert Unversioned(s[1..]) by {
        forall i | 0 <= i < |s[1..]| ensures VersionSegmentLength(s[1..][i..]) == 0 {
          assert s[1..][i..] == s[i + 1..];
        }
      }
      CurrentVersionUnchanged(s[1..]);
      assert s == [s[0]] + s[1..];
    }
  }

  /** A BAM path that needs none of the relocation work-arounds is used as it stands. */
  lemma RelocationUnchanged(raw: string)
    requires !Contains(raw, "/cga/pancan2/picard_bams/ext_tcga") && !Contains(raw, "CONT_")
    requires Unversioned(raw)
    ensures RelocatedBamPath(raw) == raw
  {
    CurrentVersionUnchanged(raw);
  }
}
