/** The main loop: for every site of this run's shard, decode the VCF row and, for each ALT
    allele, find the calling region, choose het and hom-alt samples, and record the variant in the
    two tables with the paths of the reassembled BAMs. */
module Driver {
  import opened Wrappers
  import opened Text
  import opened VcfRow
  import opened SampleSelector
  import opened CallingIntervals
  import opened OutputPath
  import opened VariantLedger
  import opened Sharding

  const ActiveRegionPadding := 300
  /** `"__+-%s" % ACTIVE_REGION_PADDING`. */
  const PaddingSuffix := "__+-300"

  /** `get_minimal_representation(pos, ref, alt)`: position, reference and alternate allele. */
  datatype MinRep = MinRep(pos: int, ref: string, alt: string)

  /** What the per-allele step reads besides the row: the options, the loaded calling regions, the
      info table, the BAM-existence check and the minimal-representation function. */
  datatype Inputs = Inputs(
    useCallingIntervals: bool,
    intervals: seq<Interval>,
    table: SampleTable,
    readable: string -> bool,
    minrep: (string, string, string) -> MinRep)

  /** The region handed to HaplotypeCaller and the file-name suffix that goes with it. */
  datatype Window = Window(start: Cell, end: Cell, suffix: string)

  datatype StepError =
    | NoUniqueRegion(lookup: LookupError)
    | SelectionFailed(selection: SelectError)

  /** The calling region around the variant, or a fixed window of 300 bases either side. */
  function RegionFor(inputs: Inputs, chrom: string, pos: int): Result<Window, LookupError>
  {
    if inputs.useCallingIntervals then
      match Lookup(inputs.intervals, chrom, pos)
      case Err(e) => Err(e)
      case Ok(r) => Ok(Window(r.start, r.end, ""))
    else Ok(Window(IntCell(pos - ActiveRegionPadding), IntCell(pos + ActiveRegionPadding), PaddingSuffix))
  }

  /** The first element of each `(bam, gvcf)` pair. */
  function Bams(ps: seq<BamPair>): (r: seq<string>)
    ensures |r| == |ps| && forall i :: 0 <= i < |ps| ==> r[i] == ps[i].bam
  {
    if ps == [] then [] else [ps[0].bam] + Bams(ps[1..])
  }

  /** The relative paths of the first `count` reassembled BAMs of class `hetOrHom`. */
  function RelativePaths(key: VariantKey, hetOrHom: string, count: nat, suffix: string): (r: seq<string>)
    ensures |r| == count
    ensures forall i :: 0 <= i < count ==> r[i] == RelativeBamPath(key.chrom, key.pos, key.ref, key.alt, hetOrHom, i, suffix)
  {
    if count == 0 then []
    else RelativePaths(key, hetOrHom, count - 1, suffix) + [RelativeBamPath(key.chrom, key.pos, key.ref, key.alt, hetOrHom, count - 1, suffix)]
  }

  /** What one allele does to the two tables. */
  datatype Plan =
    | Skip
    | Record(key: VariantKey, progressRow: ProgressRow, metadataRow: MetadataRow, bamsHet: string, bamsHom: string)

  /** The per-allele step of the driver for the ALT allele at 0-based `altIndex`: minimal
      representation, region, het then hom-alt selection at the 1-based allele index, and the
      rows and path lists to write, or `Skip` when neither class has a sample. */
  function PlanAllele(inputs: Inputs, chrom: string, pos: string, ref: string, altIndex: nat, alt: string, g: GenotypeMap)
    : Result<Plan, StepError>
    requires WellFormed(g)
  {
    var mr := inputs.minrep(pos, ref, alt);
    var key := VariantKey(chrom, mr.pos, mr.ref, mr.alt);
    match RegionFor(inputs, chrom, mr.pos)
    case Err(e) => Err(NoUniqueRegion(e))
    case Ok(w) =>
      match Selection("het", altIndex + 1, g, inputs.table, inputs.readable)
      case Err(e) => Err(SelectionFailed(e))
      case Ok(het) =>
        match Selection("hom", altIndex + 1, g, inputs.table, inputs.readable)
        case Err(e) => Err(SelectionFailed(e))
        case Ok(hom) =>
          if |het| + |hom| == 0 then Ok(Skip)
          else Ok(Record(
            key,
            ProgressRow(|het|, |hom|, "", "", false),
            MetadataRow(w.start, w.end, Join(Bams(Pairs(het)), ','), Join(Bams(Pairs(hom)), ',')),
            Join(RelativePaths(key, "het", |het|, w.suffix), ','),
            Join(RelativePaths(key, "hom", |hom|, w.suffix), ',')))
  }

  /** The two tables after a plan: insert-or-ignore into both, then the finishing update. */
  function ApplyPlan(progress: map<VariantKey, ProgressRow>, metadata: map<VariantKey, MetadataRow>, plan: Plan)
    : (map<VariantKey, ProgressRow>, map<VariantKey, MetadataRow>)
  {
    match plan
    case Skip => (progress, metadata)
    case Record(key, pr, mr, het, hom) =>
      (MarkFinished(InsertOrIgnore(progress, key, pr), key, het, hom), InsertOrIgnore(metadata, key, mr))
  }

  /** A plan the step can produce: a recorded variant has at least one chosen sample. */
  predicate Plausible(plan: Plan)
  {
    plan.Record? ==> plan.progressRow.nHet + plan.progressRow.nHomAlt > 0
  }

  /** The step skips exactly the alleles for which both selections come back empty; a recorded
      allele has at most five samples of each class, counted in its new public row, and its
      private row carries the region and the chosen samples' BAM paths. */
  lemma PlanShape(inputs: Inputs, chrom: string, pos: string, ref: string, altIndex: nat, alt: string, g: GenotypeMap)
    requires WellFormed(g)
    requires PlanAllele(inputs, chrom, pos, ref, altIndex, alt, g).Ok?
    ensures var plan := PlanAllele(inputs, chrom, pos, ref, altIndex, alt, g).value;
      var het := Selection("het", altIndex + 1, g, inputs.table, inputs.readable);
      var hom := Selection("hom", altIndex + 1, g, inputs.table, inputs.readable);
      var mr := inputs.minrep(pos, ref, alt);
      && het.Ok? && hom.Ok? && RegionFor(inputs, chrom, mr.pos).Ok?
      && Plausible(plan)
      && (plan.Skip? <==> het.value == [] && hom.value == [])
      && (plan.Record? ==>
            && plan.key == VariantKey(chrom, mr.pos, mr.ref, mr.alt)
            && plan.progressRow == ProgressRow(|het.value|, |hom.value|, "", "", false)
            && plan.progressRow.nHet <= MaxSamplesToShow && plan.progressRow.nHomAlt <= MaxSamplesToShow
            && plan.metadataRow.callingRegionStart == RegionFor(inputs, chrom, mr.pos).value.start
            && plan.metadataRow.callingRegionEnd == RegionFor(inputs, chrom, mr.pos).value.end)
  {
    SelectionSound("het", altIndex + 1, g, inputs.table, inputs.readable);
    SelectionSound("hom", altIndex + 1, g, inputs.table, inputs.readable);
  }

  /** The relative paths of one variant never repeat, across both classes. */
  lemma RelativePathsDistinct(key: VariantKey, nHet: nat, nHom: nat, suffix: string)
    ensures var ps := RelativePaths(key, "het", nHet, suffix) + RelativePaths(key, "hom", nHom, suffix);
      forall i, j :: 0 <= i < j < |ps| ==> ps[i] != ps[j]
  {
    var ps := RelativePaths(key, "het", nHet, suffix) + RelativePaths(key, "hom", nHom, suffix);
    forall i, j | 0 <= i < j < |ps| ensures ps[i] != ps[j] {
      var class1, index1 := if i < nHet then "het" else "hom", if i < nHet then i else i - nHet;
      var class2, index2 := if j < nHet then "het" else "hom", if j < nHet then j else j - nHet;
      PathOfBoth(key, nHet, nHom, suffix, i);
      PathOfBoth(key, nHet, nHom, suffix, j);
      RelativeBamPathsDistinct(key.chrom, key.pos, key.ref, key.alt, suffix, class1, index1, class2, index2);
    }
  }

  /** The `i`-th path of the concatenated lists: the het paths come first, then the hom paths. */
  lemma PathOfBoth(key: VariantKey, nHet: nat, nHom: nat, suffix: string, i: nat)
    requires i < nHet + nHom
    ensures (RelativePaths(key, "het", nHet, suffix) + RelativePaths(key, "hom", nHom, suffix))[i]
         == if i < nHet then RelativeBamPath(key.chrom, key.pos, key.ref, key.alt, "het", i, suffix)
            else RelativeBamPath(key.chrom, key.pos, key.ref, key.alt, "hom", i - nHet, suffix)
  {
    var het := RelativePaths(key, "het", nHet, suffix);
    var hom := RelativePaths(key, "hom", nHom, suffix);
    if i < nHet {
      assert (het + hom)[i] == het[i];
    } else {
      assert (het + hom)[i] == hom[i - nHet];
    }
  }

  /** After a recorded allele both tables hold its key and its public row is finished with the new
      path lists. A first visit stores the new counts and region; a repeat visit keeps the counts
      and private row of the first visit and replaces only the path lists. No other variant's rows
      change. */
  lemma ApplyRecord(progress: map<VariantKey, ProgressRow>, metadata: map<VariantKey, MetadataRow>, plan: Plan)
    requires plan.Record?
    ensures var (p, m) := ApplyPlan(progress, metadata, plan);
      var k := plan.key;
      && p.Keys == progress.Keys + {k} && m.Keys == metadata.Keys + {k}
      && p[k].finished && p[k].reassembledBamsHet == plan.bamsHet && p[k].reassembledBamsHom == plan.bamsHom
      && (k !in progress ==> p[k].nHet == plan.progressRow.nHet && p[k].nHomAlt == plan.progressRow.nHomAlt)
      && (k in progress ==> p[k].nHet == progress[k].nHet && p[k].nHomAlt == progress[k].nHomAlt)
      && m[k] == (if k in metadata then metadata[k] else plan.metadataRow)
      && (forall k' :: k' in progress && k' != k ==> p[k'] == progress[k'])
      && (forall k' :: k' in metadata && k' != k ==> m[k'] == metadata[k'])
  {
    var k := plan.key;
    InsertOrIgnoreEffect(progress, k, plan.progressRow);
    InsertOrIgnoreEffect(metadata, k, plan.metadataRow);
    MarkFinishedEffect(InsertOrIgnore(progress, k, plan.progressRow), k, plan.bamsHet, plan.bamsHom);
  }

  /** Every step keeps the tables consistent: the same keys in both, and no public row without a
      chosen sample or left unfinished. */
  lemma ApplyPreservesConsistency(progress: map<VariantKey, ProgressRow>, metadata: map<VariantKey, MetadataRow>, plan: Plan)
    requires Consistent(progress, metadata) && Plausible(plan)
    ensures var (p, m) := ApplyPlan(progress, metadata, plan); Consistent(p, m)
  {
    if plan.Record? {
      ApplyRecord(progress, metadata, plan);
    }
  }

  /** The two command-line switches read in the per-sample loop of a recorded allele. */
  datatype SampleFlags = SampleFlags(runHaplotypeCaller: bool, createLinksToOriginalBams: bool)

  /** The two tables after a plan as the script is written, and whether the step raised. The
      name `gvcfs_match` is only assigned when HaplotypeCaller runs, and the symlink test reads it
      unless the links switch short-circuits it. So with neither switch the first chosen sample
      raises, after both inserts and before the finishing update. */
  datatype Applied = Applied(progress: map<VariantKey, ProgressRow>, metadata: map<VariantKey, MetadataRow>, raised: bool)

  /** Whether the per-sample loop of a recorded allele reaches the unbound read. */
  predicate RaisesUnbound(plan: Plan, flags: SampleFlags)
  {
    && plan.Record?
    && plan.progressRow.nHet + plan.progressRow.nHomAlt > 0
    && !flags.runHaplotypeCaller && !flags.createLinksToOriginalBams
  }

  function ApplyPlanAsWritten(progress: map<VariantKey, ProgressRow>, metadata: map<VariantKey, MetadataRow>, plan: Plan, flags: SampleFlags)
    : (r: Applied)
    ensures r.raised <==> RaisesUnbound(plan, flags)
    ensures !r.raised ==> (r.progress, r.metadata) == ApplyPlan(progress, metadata, plan)
  {
    if RaisesUnbound(plan, flags) then
      Applied(InsertOrIgnore(progress, plan.key, plan.progressRow), InsertOrIgnore(metadata, plan.key, plan.metadataRow), true)
    else
      var (p, m) := ApplyPlan(progress, metadata, plan);
      Applied(p, m, false)
  }

  /** With neither switch, a newly recorded allele stops the run with its public row unfinished
      and its path columns empty, so the tables are no longer consistent. */
  lemma UnsetFlagsLeaveRowUnfinished(progress: map<VariantKey, ProgressRow>, metadata: map<VariantKey, MetadataRow>, plan: Plan)
    requires plan.Record? && Plausible(plan)
    requires !plan.progressRow.finished && plan.progressRow.reassembledBamsHet == "" && plan.progressRow.reassembledBamsHom == ""
    requires plan.key !in progress
    ensures var r := ApplyPlanAsWritten(progress, metadata, plan, SampleFlags(false, false));
      && r.raised
      && plan.key in r.progress && plan.key in r.metadata
      && !r.progress[plan.key].finished
      && r.progress[plan.key].reassembledBamsHet == "" && r.progress[plan.key].reassembledBamsHom == ""
      && !Consistent(r.progress, r.metadata)
  {
    var r := ApplyPlanAsWritten(progress, metadata, plan, SampleFlags(false, false));
    InsertOrIgnoreEffect(progress, plan.key, plan.progressRow);
    InsertOrIgnoreEffect(metadata, plan.key, plan.metadataRow);
    assert plan.key in r.progress && !r.progress[plan.key].finished;
  }

  /** With either switch, or for a skipped allele, the step as written is `ApplyPlan`, which keeps
      the tables consistent. */
  lemma SetFlagsKeepConsistency(progress: map<VariantKey, ProgressRow>, metadata: map<VariantKey, MetadataRow>, plan: Plan, flags: SampleFlags)
    requires Consistent(progress, metadata) && Plausible(plan)
    requires flags.runHaplotypeCaller || flags.createLinksToOriginalBams || plan.Skip?
    ensures var r := ApplyPlanAsWritten(progress, metadata, plan, flags);
      !r.raised && (r.progress, r.metadata) == ApplyPlan(progress, metadata, plan) && Consistent(r.progress, r.metadata)
  {
    ApplyPreservesConsistency(progress, metadata, plan);
  }

  /** The inner loop for one class: the relative path of each chosen sample in order, added to
      the set of paths already seen, with any path found there reported in `notUnique`. */
  method ClassPaths(key: VariantKey, hetOrHom: string, count: nat, suffix: string, seen: set<string>)
    returns (paths: seq<string>, seenAfter: set<string>, notUnique: seq<string>)
    requires forall i :: 0 <= i < count ==> RelativeBamPath(key.chrom, key.pos, key.ref, key.alt, hetOrHom, i, suffix) !in seen
    ensures paths == RelativePaths(key, hetOrHom, count, suffix)
    ensures forall p :: p in seenAfter <==> p in seen || p in paths
    ensures notUnique == []
  {
    paths := [];
    seenAfter := seen;
    notUnique := [];
    for i := 0 to count
      invariant paths == RelativePaths(key, hetOrHom, i, suffix)
      invariant forall p :: p in seenAfter <==> p in seen || p in paths
      invariant notUnique == []
    {
      var path := RelativeBamPath(key.chrom, key.pos, key.ref, key.alt, hetOrHom, i, suffix);
      forall j | 0 <= j < i ensures paths[j] != path {
        RelativeBamPathsDistinct(key.chrom, key.pos, key.ref, key.alt, suffix, hetOrHom, j, hetOrHom, i);
      }
      if path in seenAfter {
        notUnique := notUnique + [path];
      } else {
        seenAfter := seenAfter + {path};
      }
      paths := paths + [path];
    }
  }

  /** `relative_reassembled_bam_paths` and the uniqueness check over both classes, het first:
      no path is ever reported as a duplicate. */
  method OutputPaths(key: VariantKey, nHet: nat, nHom: nat, suffix: string)
    returns (het: seq<string>, hom: seq<string>, notUnique: seq<string>)
    ensures het == RelativePaths(key, "het", nHet, suffix)
    ensures hom == RelativePaths(key, "hom", nHom, suffix)
    ensures notUnique == []
  {
    var seen: set<string>, dupHet: seq<string>, dupHom: seq<string>;
    het, seen, dupHet := ClassPaths(key, "het", nHet, suffix, {});
    forall i | 0 <= i < nHom
      ensures RelativeBamPath(key.chrom, key.pos, key.ref, key.alt, "hom", i, suffix) !in seen
    {
      forall j | 0 <= j < nHet
        ensures het[j] != RelativeBamPath(key.chrom, key.pos, key.ref, key.alt, "hom", i, suffix)
      {
        RelativeBamPathsDistinct(key.chrom, key.pos, key.ref, key.alt, suffix, "het", j, "hom", i);
      }
    }
    hom, seen, dupHom := ClassPaths(key, "hom", nHom, suffix, seen);
    notUnique := dupHet + dupHom;
  }

  /** One iteration of the allele loop, from the minimal representation to the finishing update.
      An error (no unique region, or a selection that raises) leaves both tables as they were. */
  method ProcessAllele(ledger: Ledger, inputs: Inputs, chrom: string, pos: string, ref: string, altIndex: nat, alt: string,
                       g: GenotypeMap)
    returns (r: Result<bool, StepError>)
    requires WellFormed(g)
    modifies ledger
    ensures r.Ok? <==> PlanAllele(inputs, chrom, pos, ref, altIndex, alt, g).Ok?
    ensures r.Err? ==> r.error == PlanAllele(inputs, chrom, pos, ref, altIndex, alt, g).error
    ensures r.Err? ==> ledger.progress == old(ledger.progress) && ledger.metadata == old(ledger.metadata)
    ensures r.Ok? ==>
      var plan := PlanAllele(inputs, chrom, pos, ref, altIndex, alt, g).value;
      && r.value == plan.Record?
      && (ledger.progress, ledger.metadata) == ApplyPlan(old(ledger.progress), old(ledger.metadata), plan)
  {
    var mr := inputs.minrep(pos, ref, alt);
    var key := VariantKey(chrom, mr.pos, mr.ref, mr.alt);
    var window := RegionFor(inputs, chrom, mr.pos);
    if window.Err? {
      return Err(NoUniqueRegion(window.error));
    }
    var w := window.value;
    var het := ChooseSamples("het", altIndex + 1, g, inputs.table, inputs.readable);
    if het.Err? {
      return Err(SelectionFailed(het.error));
    }
    var hom := ChooseSamples("hom", altIndex + 1, g, inputs.table, inputs.readable);
    if hom.Err? {
      return Err(SelectionFailed(hom.error));
    }
    if |het.value| + |hom.value| == 0 {
      return Ok(false);
    }
    ledger.InsertProgress(key, ProgressRow(|het.value|, |hom.value|, "", "", false));
    ledger.InsertMetadata(key, MetadataRow(w.start, w.end, Join(Bams(het.value), ','), Join(Bams(hom.value), ',')));
    var hetPaths, homPaths, notUnique := OutputPaths(key, |het.value|, |hom.value|, w.suffix);
    ledger.Finish(key, Join(hetPaths, ','), Join(homPaths, ','));
    r := Ok(true);
  }

  /** The driver's counters. */
  datatype Counters = Counters(sites: nat, allAlleles: nat, allelesToBeAdded: nat, homRefAlleles: nat, addedToDb: nat)

  /** Every allele looked at is either skipped or added. */
  predicate Balanced(c: Counters)
  {
    c.allAlleles == c.allelesToBeAdded == c.homRefAlleles + c.addedToDb
  }

  /** What stops a run: a bad thread index, a calling-intervals file the load rejects, a header
      the decoder refuses, a row it cannot decode, or an allele whose step raises. */
  datatype RunError =
    | BadThread(thread: ThreadError)
    | BadIntervals(load: LoadError)
    | BadHeader(header: HeaderError)
    | BadRow(site: nat, row: RowError)
    | BadAllele(site: nat, allele: StepError)

  lemma DecodedGenotypesWellFormed(p: RowParser, nums: Numerals, fields: seq<string>)
    requires DecodeRow(p, nums, fields).Ok?
    ensures WellFormed(DecodeRow(p, nums, fields).value.genotypes)
  {
    DecodeRowSound(p, nums, fields);
  }

  /** Where a run stands: the two tables, the counters, and the error that stopped it, if any.
      Rows written before the error stay in the tables, as the commits after each insert leave them. */
  datatype RunState = RunState(
    progress: map<VariantKey, ProgressRow>,
    metadata: map<VariantKey, MetadataRow>,
    counters: Counters,
    failure: Option<RunError>)

  /** The given tables with every counter at zero. */
  function Start(progress: map<VariantKey, ProgressRow>, metadata: map<VariantKey, MetadataRow>): RunState
  {
    RunState(progress, metadata, Counters(0, 0, 0, 0, 0), None)
  }

  /** What a run reports: its counters, or the error that stopped it. */
  function ResultOf(s: RunState): Result<Counters, RunError>
  {
    if s.failure.Some? then Err(s.failure.value) else Ok(s.counters)
  }

  /** The counters after one allele: looked at, to be added, then added or skipped. */
  function Tally(c: Counters, added: bool): Counters
  {
    var counted := c.(allAlleles := c.allAlleles + 1, allelesToBeAdded := c.allelesToBeAdded + 1);
    if added then counted.(addedToDb := counted.addedToDb + 1)
    else counted.(homRefAlleles := counted.homRefAlleles + 1)
  }

  /** The step of each ALT allele of a decoded row, by 0-based index. */
  type AllelePlanner = (Row, nat) -> Result<Plan, StepError>

  /** The row decoder `main` builds from the header. */
  type RowDecoder = seq<string> -> Result<Row, RowError>

  /** The per-allele step with fixed inputs. */
  function PlannerOf(inputs: Inputs): AllelePlanner
  {
    (row: Row, altIndex: nat) =>
      if WellFormed(row.genotypes) && altIndex < |row.alts|
      then PlanAllele(inputs, row.chrom, row.pos, row.ref, altIndex, row.alts[altIndex], row.genotypes)
      else Ok(Skip)
  }

  /** `DecodeRow` with a fixed parser. */
  function DecoderOf(parser: RowParser, nums: Numerals): RowDecoder
  {
    fields => DecodeRow(parser, nums, fields)
  }

  /** One iteration of the allele loop at site `site`: plan the allele and apply the plan, or stop
      with the step's error. A stopped run stays as it is. */
  function AlleleStep(planner: AllelePlanner, row: Row, site: nat, altIndex: nat, s: RunState): RunState
  {
    if s.failure.Some? then s
    else match planner(row, altIndex)
      case Err(e) => s.(failure := Some(BadAllele(site, e)))
      case Ok(plan) =>
        var (p, m) := ApplyPlan(s.progress, s.metadata, plan);
        RunState(p, m, Tally(s.counters, plan.Record?), None)
  }

  /** The state after the allele loop has handled the first `n` ALT alleles of a row. */
  function SiteEffect(planner: AllelePlanner, row: Row, site: nat, n: nat, s: RunState): RunState
    requires n <= |row.alts|
  {
    if n == 0 then s
    else AlleleStep(planner, row, site, n - 1, SiteEffect(planner, row, site, n - 1, s))
  }

  /** One iteration of the site loop, for the row at 0-based index `i`: count the site and, when
      it belongs to this run's shard, decode the row and run the allele loop over it. */
  function SiteStep(planner: AllelePlanner, decode: RowDecoder, rows: seq<seq<string>>,
                    nThreads: nat, thread0: nat, i: nat, s: RunState): RunState
    requires nThreads > 0 && i < |rows|
  {
    if s.failure.Some? then s
    else
      var counted := s.(counters := s.counters.(sites := s.counters.sites + 1));
      if !Processes(i + 1, nThreads, thread0) then counted
      else match decode(rows[i])
        case Err(e) => counted.(failure := Some(BadRow(i + 1, e)))
        case Ok(row) => SiteEffect(planner, row, i + 1, |row.alts|, counted)
  }

  /** The state after the site loop has read the first `n` rows. */
  function ShardEffect(planner: AllelePlanner, decode: RowDecoder, rows: seq<seq<string>>,
                       nThreads: nat, thread0: nat, n: nat, s: RunState): RunState
    requires nThreads > 0 && n <= |rows|
  {
    if n == 0 then s
    else SiteStep(planner, decode, rows, nThreads, thread0, n - 1,
                  ShardEffect(planner, decode, rows, nThreads, thread0, n - 1, s))
  }

  /** Every plan the planner produces records a variant only with a chosen sample. */
  ghost predicate PlansPlausible(planner: AllelePlanner)
  {
    forall row: Row, altIndex: nat :: planner(row, altIndex).Ok? ==> Plausible(planner(row, altIndex).value)
  }

  /** `planner` is the driver's own step on every ALT allele of every decoded row. The trigger
      keeps the equation out of the way until the step itself is mentioned. */
  ghost predicate PlansLike(planner: AllelePlanner, inputs: Inputs)
  {
    forall row: Row, altIndex: nat
      {:trigger PlanAllele(inputs, row.chrom, row.pos, row.ref, altIndex, row.alts[altIndex], row.genotypes)} ::
      WellFormed(row.genotypes) && altIndex < |row.alts| ==>
        planner(row, altIndex) == PlanAllele(inputs, row.chrom, row.pos, row.ref, altIndex, row.alts[altIndex], row.genotypes)
  }

  lemma PlannerOfPlans(inputs: Inputs)
    ensures PlansLike(PlannerOf(inputs), inputs)
  {
  }

  /** `decode` is the row decoder of `parser` on every row. */
  ghost predicate DecodesLike(decode: RowDecoder, parser: RowParser, nums: Numerals)
  {
    forall fields {:trigger DecodeRow(parser, nums, fields)} :: decode(fields) == DecodeRow(parser, nums, fields)
  }

  lemma DecoderOfDecodes(parser: RowParser, nums: Numerals)
    ensures DecodesLike(DecoderOf(parser, nums), parser, nums)
  {
  }

  /** The driver's step only records an allele that has a chosen sample. */
  lemma PlannerPlausible(inputs: Inputs)
    ensures PlansPlausible(PlannerOf(inputs))
  {
    forall row: Row, altIndex: nat | PlannerOf(inputs)(row, altIndex).Ok?
      ensures Plausible(PlannerOf(inputs)(row, altIndex).value)
    {
      if WellFormed(row.genotypes) && altIndex < |row.alts| {
        PlanShape(inputs, row.chrom, row.pos, row.ref, altIndex, row.alts[altIndex], row.genotypes);
      }
    }
  }

  /** Applying a plan adds at most one public row, and only when it records a variant. */
  lemma ApplyRowCount(progress: map<VariantKey, ProgressRow>, metadata: map<VariantKey, MetadataRow>, plan: Plan)
    ensures |ApplyPlan(progress, metadata, plan).0.Keys| <= |progress.Keys| + (if plan.Record? then 1 else 0)
  {
    if plan.Record? {
      ApplyRecord(progress, metadata, plan);
      var keys := progress.Keys + {plan.key};
      assert |keys| <= |progress.Keys| + 1 by {
        if plan.key in progress.Keys {
          assert keys == progress.Keys;
        }
      }
    }
  }

  /** The allele loop keeps the counters balanced. */
  lemma {:induction false} SiteEffectBalanced(planner: AllelePlanner, row: Row, site: nat, n: nat, s: RunState)
    requires n <= |row.alts| && Balanced(s.counters)
    ensures Balanced(SiteEffect(planner, row, site, n, s).counters)
  {
    if n > 0 {
      SiteEffectBalanced(planner, row, site, n - 1, s);
    }
  }

  /** The allele loop keeps the tables consistent. */
  lemma {:induction false} SiteEffectConsistent(planner: AllelePlanner, row: Row, site: nat, n: nat, s: RunState)
    requires n <= |row.alts| && PlansPlausible(planner) && Consistent(s.progress, s.metadata)
    ensures var r := SiteEffect(planner, row, site, n, s); Consistent(r.progress, r.metadata)
  {
    if n > 0 {
      var prev := SiteEffect(planner, row, site, n - 1, s);
      SiteEffectConsistent(planner, row, site, n - 1, s);
      var plan := planner(row, n - 1);
      if prev.failure.None? && plan.Ok? {
        ApplyPreservesConsistency(prev.progress, prev.metadata, plan.value);
      }
    }
  }

  /** The allele loop adds at most one public row per added allele. */
  lemma {:induction false} SiteEffectRowCount(planner: AllelePlanner, row: Row, site: nat, n: nat, s: RunState)
    requires n <= |row.alts|
    ensures var r := SiteEffect(planner, row, site, n, s);
      |r.progress.Keys| + s.counters.addedToDb <= |s.progress.Keys| + r.counters.addedToDb
  {
    if n > 0 {
      var prev := SiteEffect(planner, row, site, n - 1, s);
      SiteEffectRowCount(planner, row, site, n - 1, s);
      var plan := planner(row, n - 1);
      if prev.failure.None? && plan.Ok? {
        ApplyRowCount(prev.progress, prev.metadata, plan.value);
      }
    }
  }

  /** The allele loop never changes the site count. */
  lemma {:induction false} SiteEffectSites(planner: AllelePlanner, row: Row, site: nat, n: nat, s: RunState)
    requires n <= |row.alts|
    ensures SiteEffect(planner, row, site, n, s).counters.sites == s.counters.sites
  {
    if n > 0 {
      SiteEffectSites(planner, row, site, n - 1, s);
    }
  }

  /** The site loop keeps the counters balanced. */
  lemma {:induction false} ShardEffectBalanced(planner: AllelePlanner, decode: RowDecoder, rows: seq<seq<string>>,
                                               nThreads: nat, thread0: nat, n: nat, s: RunState)
    requires nThreads > 0 && n <= |rows| && Balanced(s.counters)
    ensures Balanced(ShardEffect(planner, decode, rows, nThreads, thread0, n, s).counters)
  {
    if n > 0 {
      var before := ShardEffect(planner, decode, rows, nThreads, thread0, n - 1, s);
      ShardEffectBalanced(planner, decode, rows, nThreads, thread0, n - 1, s);
      var counted := before.(counters := before.counters.(sites := before.counters.sites + 1));
      var decoded := decode(rows[n - 1]);
      if before.failure.None? && Processes(n, nThreads, thread0) && decoded.Ok? {
        SiteEffectBalanced(planner, decoded.value, n, |decoded.value.alts|, counted);
      }
    }
  }

  /** The site loop keeps the tables consistent. */
  lemma {:induction false} ShardEffectConsistent(planner: AllelePlanner, decode: RowDecoder, rows: seq<seq<string>>,
                                                 nThreads: nat, thread0: nat, n: nat, s: RunState)
    requires nThreads > 0 && n <= |rows| && PlansPlausible(planner) && Consistent(s.progress, s.metadata)
    ensures var r := ShardEffect(planner, decode, rows, nThreads, thread0, n, s); Consistent(r.progress, r.metadata)
  {
    if n > 0 {
      var before := ShardEffect(planner, decode, rows, nThreads, thread0, n - 1, s);
      ShardEffectConsistent(planner, decode, rows, nThreads, thread0, n - 1, s);
      var counted := before.(counters := before.counters.(sites := before.counters.sites + 1));
      var decoded := decode(rows[n - 1]);
      if before.failure.None? && Processes(n, nThreads, thread0) && decoded.Ok? {
        SiteEffectConsistent(planner, decoded.value, n, |decoded.value.alts|, counted);
      }
    }
  }

  /** The site loop adds at most one public row per added allele. */
  lemma {:induction false} ShardEffectRowCount(planner: AllelePlanner, decode: RowDecoder, rows: seq<seq<string>>,
                                               nThreads: nat, thread0: nat, n: nat, s: RunState)
    requires nThreads > 0 && n <= |rows|
    ensures var r := ShardEffect(planner, decode, rows, nThreads, thread0, n, s);
      |r.progress.Keys| + s.counters.addedToDb <= |s.progress.Keys| + r.counters.addedToDb
  {
    if n > 0 {
      var before := ShardEffect(planner, decode, rows, nThreads, thread0, n - 1, s);
      ShardEffectRowCount(planner, decode, rows, nThreads, thread0, n - 1, s);
      var counted := before.(counters := before.counters.(sites := before.counters.sites + 1));
      var decoded := decode(rows[n - 1]);
      if before.failure.None? && Processes(n, nThreads, thread0) && decoded.Ok? {
        SiteEffectRowCount(planner, decoded.value, n, |decoded.value.alts|, counted);
      }
    }
  }

  /** The site loop counts every row it reads, unless it stopped. */
  lemma {:induction false} ShardEffectSites(planner: AllelePlanner, decode: RowDecoder, rows: seq<seq<string>>,
                                            nThreads: nat, thread0: nat, n: nat, s: RunState)
    requires nThreads > 0 && n <= |rows|
    ensures var r := ShardEffect(planner, decode, rows, nThreads, thread0, n, s);
      r.failure.None? ==> r.counters.sites == s.counters.sites + n
  {
    if n > 0 {
      var before := ShardEffect(planner, decode, rows, nThreads, thread0, n - 1, s);
      ShardEffectSites(planner, decode, rows, nThreads, thread0, n - 1, s);
      var counted := before.(counters := before.counters.(sites := before.counters.sites + 1));
      var decoded := decode(rows[n - 1]);
      if before.failure.None? && Processes(n, nThreads, thread0) && decoded.Ok? {
        SiteEffectSites(planner, decoded.value, n, |decoded.value.alts|, counted);
      }
    }
  }

  /** Once a run has stopped, later alleles change nothing. */
  lemma {:induction false} SiteFailureStays(planner: AllelePlanner, row: Row, site: nat, m: nat, n: nat, s: RunState)
    requires m <= n <= |row.alts|
    requires SiteEffect(planner, row, site, m, s).failure.Some?
    ensures SiteEffect(planner, row, site, n, s) == SiteEffect(planner, row, site, m, s)
    decreases n - m
  {
    if m < n {
      SiteFailureStays(planner, row, site, m + 1, n, s);
    }
  }

  /** Once a run has stopped, later rows change nothing. */
  lemma {:induction false} ShardFailureStays(planner: AllelePlanner, decode: RowDecoder, rows: seq<seq<string>>,
                                             nThreads: nat, thread0: nat, m: nat, n: nat, s: RunState)
    requires nThreads > 0 && m <= n <= |rows|
    requires ShardEffect(planner, decode, rows, nThreads, thread0, m, s).failure.Some?
    ensures ShardEffect(planner, decode, rows, nThreads, thread0, n, s)
         == ShardEffect(planner, decode, rows, nThreads, thread0, m, s)
    decreases n - m
  {
    if m < n {
      ShardFailureStays(planner, decode, rows, nThreads, thread0, m + 1, n, s);
    }
  }

  /** The ALT allele at `altIndex` of `row` is recorded under `key`: its step succeeds and plans a
      `Record`, which the driver's step does exactly when a het or hom-alt sample was chosen. */
  predicate AlleleRecords(planner: AllelePlanner, row: Row, altIndex: nat, key: VariantKey)
  {
    && altIndex < |row.alts|
    && planner(row, altIndex).Ok?
    && planner(row, altIndex).value.Record?
    && planner(row, altIndex).value.key == key
  }

  /** The public table after the allele loop holds the keys it held before and the keys of the
      recorded alleles, and nothing else. */
  lemma {:induction false} SiteKeys(planner: AllelePlanner, row: Row, site: nat, n: nat, s: RunState)
    requires n <= |row.alts|
    requires SiteEffect(planner, row, site, n, s).failure.None?
    ensures forall k :: k in SiteEffect(planner, row, site, n, s).progress <==>
      k in s.progress || exists a :: 0 <= a < n && AlleleRecords(planner, row, a, k)
  {
    if n > 0 {
      var before := SiteEffect(planner, row, site, n - 1, s);
      SiteKeys(planner, row, site, n - 1, s);
      var plan := planner(row, n - 1);
      assert before.failure.None? && plan.Ok?;
      var after := SiteEffect(planner, row, site, n, s);
      if plan.value.Record? {
        ApplyRecord(before.progress, before.metadata, plan.value);
      }
      var last := n - 1;
      forall k ensures k in after.progress <==> k in before.progress || AlleleRecords(planner, row, last, k) {
      }
      forall k ensures (exists a :: 0 <= a < n && AlleleRecords(planner, row, a, k)) <==>
        (exists a :: 0 <= a < last && AlleleRecords(planner, row, a, k)) || AlleleRecords(planner, row, last, k)
      {
        if exists a :: 0 <= a < n && AlleleRecords(planner, row, a, k) {
          var a :| 0 <= a < n && AlleleRecords(planner, row, a, k);
          assert a < last || a == last;
        }
      }
    }
  }

  /** Site `site` (1-based) belongs to this run's shard, its row decodes, and one of its ALT
      alleles is recorded under `key`. */
  ghost predicate SiteRecords(planner: AllelePlanner, decode: RowDecoder, rows: seq<seq<string>>,
                              nThreads: nat, thread0: nat, site: nat, key: VariantKey)
  {
    && nThreads > 0
    && 1 <= site <= |rows|
    && Processes(site, nThreads, thread0)
    && decode(rows[site - 1]).Ok?
    && AnyAlleleRecords(planner, decode(rows[site - 1]).value, key)
  }

  /** Some ALT allele of `row` is recorded under `key`. */
  ghost predicate AnyAlleleRecords(planner: AllelePlanner, row: Row, key: VariantKey)
  {
    exists a: nat :: AlleleRecords(planner, row, a, key)
  }

  /** The public table after the site loop holds the keys it held before and the keys recorded at
      the shard's sites among the rows read, and nothing else. */
  lemma {:induction false} ShardKeys(planner: AllelePlanner, decode: RowDecoder, rows: seq<seq<string>>,
                                     nThreads: nat, thread0: nat, n: nat, s: RunState)
    requires nThreads > 0 && n <= |rows|
    requires ShardEffect(planner, decode, rows, nThreads, thread0, n, s).failure.None?
    ensures forall k :: k in ShardEffect(planner, decode, rows, nThreads, thread0, n, s).progress <==>
      k in s.progress || exists site :: 1 <= site <= n && SiteRecords(planner, decode, rows, nThreads, thread0, site, k)
  {
    if n > 0 {
      var before := ShardEffect(planner, decode, rows, nThreads, thread0, n - 1, s);
      ShardKeys(planner, decode, rows, nThreads, thread0, n - 1, s);
      assert before.failure.None?;
      var after := ShardEffect(planner, decode, rows, nThreads, thread0, n, s);
      var counted := before.(counters := before.counters.(sites := before.counters.sites + 1));
      if Processes(n, nThreads, thread0) {
        var row := decode(rows[n - 1]).value;
        SiteKeys(planner, row, n, |row.alts|, counted);
      }
      forall k ensures k in after.progress <==>
        k in before.progress || SiteRecords(planner, decode, rows, nThreads, thread0, n, k)
      {
        if Processes(n, nThreads, thread0) {
          var row := decode(rows[n - 1]).value;
          if AnyAlleleRecords(planner, row, k) {
            var a: nat :| AlleleRecords(planner, row, a, k);
            assert 0 <= a < |row.alts|;
          }
        }
      }
      forall k ensures (exists site :: 1 <= site <= n && SiteRecords(planner, decode, rows, nThreads, thread0, site, k)) <==>
        (exists site :: 1 <= site <= n - 1 && SiteRecords(planner, decode, rows, nThreads, thread0, site, k))
        || SiteRecords(planner, decode, rows, nThreads, thread0, n, k)
      {
        if exists site :: 1 <= site <= n && SiteRecords(planner, decode, rows, nThreads, thread0, site, k) {
          var site :| 1 <= site <= n && SiteRecords(planner, decode, rows, nThreads, thread0, site, k);
          assert site < n || site == n;
        }
      }
    }
  }

  /** An allele loop that stops does so with an allele error at its own site. */
  lemma {:induction false} SiteFailureSite(planner: AllelePlanner, row: Row, site: nat, n: nat, s: RunState)
    requires n <= |row.alts| && s.failure.None?
    requires SiteEffect(planner, row, site, n, s).failure.Some?
    ensures var f := SiteEffect(planner, row, site, n, s).failure.value;
      f.BadAllele? && f.site == site
  {
    if SiteEffect(planner, row, site, n - 1, s).failure.Some? {
      SiteFailureSite(planner, row, site, n - 1, s);
    }
  }

  /** A run that stops does so at a site of its own shard: the row there does not decode, or one
      of its alleles raises. Rows of other shards are never decoded. */
  lemma {:induction false} ShardFailureCause(planner: AllelePlanner, decode: RowDecoder, rows: seq<seq<string>>,
                                             nThreads: nat, thread0: nat, n: nat, s: RunState)
    requires nThreads > 0 && n <= |rows| && s.failure.None?
    requires ShardEffect(planner, decode, rows, nThreads, thread0, n, s).failure.Some?
    ensures var f := ShardEffect(planner, decode, rows, nThreads, thread0, n, s).failure.value;
      && (f.BadRow? || f.BadAllele?)
      && 1 <= f.site <= n && Processes(f.site, nThreads, thread0)
      && (f.BadRow? ==> decode(rows[f.site - 1]) == Err(f.row))
      && (f.BadAllele? ==> decode(rows[f.site - 1]).Ok?)
  {
    var before := ShardEffect(planner, decode, rows, nThreads, thread0, n - 1, s);
    if before.failure.Some? {
      ShardFailureCause(planner, decode, rows, nThreads, thread0, n - 1, s);
    } else {
      var counted := before.(counters := before.counters.(sites := before.counters.sites + 1));
      var decoded := decode(rows[n - 1]);
      if Processes(n, nThreads, thread0) && decoded.Ok? {
        SiteFailureSite(planner, decoded.value, n, |decoded.value.alts|, counted);
      }
    }
  }

  /** From empty tables, the driver's site loop over all rows ends with consistent tables and
      balanced counters, no more public rows than added alleles, every row counted, and a public
      table keyed by exactly the variants recorded at the shard's sites. */
  lemma ShardFromEmpty(inputs: Inputs, parser: RowParser, nums: Numerals, rows: seq<seq<string>>, nThreads: nat, thread0: nat)
    requires nThreads > 0
    ensures var planner, decode := PlannerOf(inputs), DecoderOf(parser, nums);
      var s := ShardEffect(planner, decode, rows, nThreads, thread0, |rows|, Start(map[], map[]));
      && Consistent(s.progress, s.metadata) && Balanced(s.counters)
      && |s.progress.Keys| <= s.counters.addedToDb
      && (s.failure.None? ==> s.counters.sites == |rows|)
      && (s.failure.None? ==> forall k :: k in s.progress <==>
            exists site :: 1 <= site <= |rows| && SiteRecords(planner, decode, rows, nThreads, thread0, site, k))
  {
    var planner, decode := PlannerOf(inputs), DecoderOf(parser, nums);
    var start := Start(map[], map[]);
    var s := ShardEffect(planner, decode, rows, nThreads, thread0, |rows|, start);
    PlannerPlausible(inputs);
    ShardEffectConsistent(planner, decode, rows, nThreads, thread0, |rows|, start);
    ShardEffectBalanced(planner, decode, rows, nThreads, thread0, |rows|, start);
    ShardEffectRowCount(planner, decode, rows, nThreads, thread0, |rows|, start);
    ShardEffectSites(planner, decode, rows, nThreads, thread0, |rows|, start);
    if s.failure.None? {
      ShardKeys(planner, decode, rows, nThreads, thread0, |rows|, start);
    }
  }

  /** With the driver's own step, an ALT allele of a decoded row is recorded under `key` exactly
      when the step for it succeeds and chooses a het or hom-alt sample; the key is then the
      allele's minimal representation. */
  lemma RecordedExactly(inputs: Inputs, row: Row, altIndex: nat, key: VariantKey)
    requires WellFormed(row.genotypes)
    ensures AlleleRecords(PlannerOf(inputs), row, altIndex, key) <==>
      && altIndex < |row.alts|
      && var mr := inputs.minrep(row.pos, row.ref, row.alts[altIndex]);
         var het := Selection("het", altIndex + 1, row.genotypes, inputs.table, inputs.readable);
         var hom := Selection("hom", altIndex + 1, row.genotypes, inputs.table, inputs.readable);
         && key == VariantKey(row.chrom, mr.pos, mr.ref, mr.alt)
         && RegionFor(inputs, row.chrom, mr.pos).Ok?
         && het.Ok? && hom.Ok? && |het.value| + |hom.value| > 0
  {
    if altIndex < |row.alts| {
      var plan := PlanAllele(inputs, row.chrom, row.pos, row.ref, altIndex, row.alts[altIndex], row.genotypes);
      assert PlannerOf(inputs)(row, altIndex) == plan;
      if plan.Ok? {
        PlanShape(inputs, row.chrom, row.pos, row.ref, altIndex, row.alts[altIndex], row.genotypes);
      }
    }
  }

  /** One iteration of the allele loop: count the allele, process it and count how it ended.
      The tables and the result are those of `AlleleStep` from the tables as they were. */
  method CountAllele(ledger: Ledger, inputs: Inputs, ghost planner: AllelePlanner, row: Row, site: nat, altIndex: nat,
                     c: Counters)
    returns (r: Result<Counters, RunError>)
    requires PlansLike(planner, inputs)
    requires WellFormed(row.genotypes) && altIndex < |row.alts|
    modifies ledger
    ensures var s := AlleleStep(planner, row, site, altIndex, RunState(old(ledger.progress), old(ledger.metadata), c, None));
      ledger.progress == s.progress && ledger.metadata == s.metadata && r == ResultOf(s)
  {
    ghost var plan := PlanAllele(inputs, row.chrom, row.pos, row.ref, altIndex, row.alts[altIndex], row.genotypes);
    assert planner(row, altIndex) == plan;
    var step := ProcessAllele(ledger, inputs, row.chrom, row.pos, row.ref, altIndex, row.alts[altIndex], row.genotypes);
    if step.Err? {
      return Err(BadAllele(site, step.error));
    }
    r := Ok(Tally(c, step.value));
  }

  /** The allele loop over one decoded row: the tables and the result are those of `SiteEffect`,
      starting from the tables as they were and the counters given. */
  method ProcessSite(ledger: Ledger, inputs: Inputs, ghost planner: AllelePlanner, row: Row, site: nat, counters: Counters)
    returns (r: Result<Counters, RunError>)
    requires PlansLike(planner, inputs)
    requires WellFormed(row.genotypes)
    modifies ledger
    ensures var s := SiteEffect(planner, row, site, |row.alts|, RunState(old(ledger.progress), old(ledger.metadata), counters, None));
      ledger.progress == s.progress && ledger.metadata == s.metadata && r == ResultOf(s)
  {
    ghost var s0 := RunState(ledger.progress, ledger.metadata, counters, None);
    var c := counters;
    for altIndex := 0 to |row.alts|
      invariant SiteEffect(planner, row, site, altIndex, s0) == RunState(ledger.progress, ledger.metadata, c, None)
    {
      var step := CountAllele(ledger, inputs, planner, row, site, altIndex, c);
      if step.Err? {
        SiteFailureStays(planner, row, site, altIndex + 1, |row.alts|, s0);
        return step;
      }
      c := step.value;
    }
    r := Ok(c);
  }

  /** One iteration of the site loop, for the row at 0-based index `i`: count the site and, when
      this run handles it, decode the row and run the allele loop over it. The tables and the
      result are those of `SiteStep` from the tables as they were. */
  method CountSite(ledger: Ledger, inputs: Inputs, ghost planner: AllelePlanner, parser: RowParser, nums: Numerals,
                   ghost decode: RowDecoder, rows: seq<seq<string>>, nThreads: nat, thread0: nat, i: nat, counters: Counters)
    returns (r: Result<Counters, RunError>)
    requires PlansLike(planner, inputs) && DecodesLike(decode, parser, nums)
    requires nThreads > 0 && i < |rows| && counters.sites == i
    modifies ledger
    ensures var s := SiteStep(planner, decode, rows, nThreads, thread0, i,
                              RunState(old(ledger.progress), old(ledger.metadata), counters, None));
      ledger.progress == s.progress && ledger.metadata == s.metadata && r == ResultOf(s)
    ensures r.Ok? ==> r.value.sites == i + 1
  {
    var counted := counters.(sites := counters.sites + 1);
    if counted.sites % nThreads != thread0 {
      return Ok(counted);
    }
    var row := ParseRow(parser, nums, rows[i]);
    if row.Err? {
      return Err(BadRow(counted.sites, row.error));
    }
    DecodedGenotypesWellFormed(parser, nums, rows[i]);
    SiteEffectSites(planner, row.value, counted.sites, |row.value.alts|,
                    RunState(ledger.progress, ledger.metadata, counted, None));
    r := ProcessSite(ledger, inputs, planner, row.value, counted.sites, counted);
  }

  /** The site loop of one run: count every site, handle only those of this run's shard, decode
      each handled row and process its alleles. The tables and the result are those of
      `ShardEffect` from the tables as they were and zero counters. */
  method RunShard(ledger: Ledger, inputs: Inputs, ghost planner: AllelePlanner, parser: RowParser, nums: Numerals,
                  ghost decode: RowDecoder, rows: seq<seq<string>>, nThreads: nat, thread0: nat)
    returns (r: Result<Counters, RunError>)
    requires PlansLike(planner, inputs) && PlansPlausible(planner) && DecodesLike(decode, parser, nums)
    requires thread0 < nThreads
    requires ledger.Valid()
    modifies ledger
    ensures ledger.Valid()
    ensures var s := ShardEffect(planner, decode, rows, nThreads, thread0, |rows|, Start(old(ledger.progress), old(ledger.metadata)));
      ledger.progress == s.progress && ledger.metadata == s.metadata && r == ResultOf(s)
  {
    ghost var s0 := Start(ledger.progress, ledger.metadata);
    ShardEffectConsistent(planner, decode, rows, nThreads, thread0, |rows|, s0);
    var counters := Counters(0, 0, 0, 0, 0);
    for i := 0 to |rows|
      invariant ShardEffect(planner, decode, rows, nThreads, thread0, i, s0)
             == RunState(ledger.progress, ledger.metadata, counters, None)
      invariant counters.sites == i
    {
      var step := CountSite(ledger, inputs, planner, parser, nums, decode, rows, nThreads, thread0, i, counters);
      if step.Err? {
        ShardFailureStays(planner, decode, rows, nThreads, thread0, i + 1, |rows|, s0);
        return step;
      }
      counters := step.value;
    }
    r := Ok(counters);
  }

  /** What `main` reads besides the VCF rows: the options, the info table, the BAM-existence
      check, the minimal-representation function, and the readings of `int()`/`float()` and of
      SQLite's INTEGER affinity. */
  datatype Setup = Setup(
    useCallingIntervals: bool,
    table: SampleTable,
    readable: string -> bool,
    minrep: (string, string, string) -> MinRep,
    asInteger: string -> Option<int>,
    nums: Numerals)

  /** The per-allele inputs once the calling intervals are loaded. */
  function InputsOf(setup: Setup, intervals: seq<Interval>): Inputs
  {
    Inputs(setup.useCallingIntervals, intervals, setup.table, setup.readable, setup.minrep)
  }

  /** The whole run: the thread check, the intervals load, the header check, then the site loop
      over empty tables. Each check that fails stops the run before any table is written. */
  function MainEffect(setup: Setup, intervalLines: seq<string>, headerLine: string, rows: seq<seq<string>>,
                      threadI: int, nThreads: int): RunState
  {
    match ZeroBasedThread(threadI, nThreads)
    case Err(e) => Start(map[], map[]).(failure := Some(BadThread(e)))
    case Ok(thread0) =>
      match LoadFrom(LineDecoder(setup.asInteger), intervalLines, |intervalLines|)
      case Err(e) => Start(map[], map[]).(failure := Some(BadIntervals(e)))
      case Ok(intervals) =>
        var fields := HeaderFields(headerLine);
        if !HeaderLayoutOk(fields) then Start(map[], map[]).(failure := Some(BadHeader(HeaderMismatch(fields))))
        else ShardEffect(PlannerOf(InputsOf(setup, intervals)), DecoderOf(RowParser(fields[9..], 0, 3, 2), setup.nums), rows,
                         nThreads as nat, thread0, |rows|, Start(map[], map[]))
  }

  /** `main` with the thread conversion before it: check the thread index, load the calling
      intervals, build the row decoder from the header, start with empty tables and run the
      shard. The tables and the result are those of `MainEffect`. */
  method Run(setup: Setup, intervalLines: seq<string>, headerLine: string, rows: seq<seq<string>>, threadI: int, nThreads: int)
    returns (r: Result<Counters, RunError>, ledger: Ledger)
    ensures ledger.Valid()
    ensures var s := MainEffect(setup, intervalLines, headerLine, rows, threadI, nThreads);
      ledger.progress == s.progress && ledger.metadata == s.metadata && r == ResultOf(s)
  {
    ledger := new Ledger();
    var thread := ZeroBasedThread(threadI, nThreads);
    if thread.Err? {
      return Err(BadThread(thread.error)), ledger;
    }
    var intervals := LoadIntervals(intervalLines, setup.asInteger);
    if intervals.Err? {
      return Err(BadIntervals(intervals.error)), ledger;
    }
    var parser, unknown := CreateRowParser(headerLine, setup.table.Keys);
    if parser.Err? {
      return Err(BadHeader(parser.error)), ledger;
    }
    var inputs := InputsOf(setup, intervals.value);
    PlannerOfPlans(inputs);
    PlannerPlausible(inputs);
    DecoderOfDecodes(parser.value, setup.nums);
    r := RunShard(ledger, inputs, PlannerOf(inputs), parser.value, setup.nums, DecoderOf(parser.value, setup.nums),
                  rows, nThreads as nat, thread.value);
  }
}
