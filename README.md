# ExAC read-visualisation backend: variant selection and bookkeeping

This project models the core of `generate_HC_realigned_bams.py` from the ExAC read-viz scripts. It also models the VCF row decoder in `exac_vcf.py`. The script reads the ExAC multi-sample VCF one site at a time. Each run handles only its own shard of sites. For every ALT allele of a handled site it:

- computes the minimal representation;
- finds the single exome calling region that encloses the variant;
- chooses up to five het and five hom-alt carriers, highest GQ first, keeping only those whose BAM can be found;
- records the variant in two SQLite tables, a public progress table and a private metadata table;
- records the relative paths of the reassembled BAMs it would produce.

Modules, one per part of the program:

| module | file | what it models |
|---|---|---|
| `Wrappers` | `wrappers.dfy` | `Option` and `Result` |
| `Text` | `text.dfy` | `str.split` and `str.join`, `strip("\n")`, `str.replace`, `%d`, and the zero-padded `%02d`/`%04d` |
| `VcfRow` | `vcf_row.dfy` | `create_vcf_row_parser` and the `vcf_row_parser` it returns |
| `SampleSelector` | `sample_selector.dfy` | `choose_samples` and `get_bam_path` |
| `CallingIntervals` | `calling_intervals.dfy` | `parse_exac_calling_intervals` and the region query in `main` |
| `OutputPath` | `output_path.dfy` | `compute_reassembled_bam_path` and the relative path stored in the database |
| `VariantLedger` | `variant_ledger.dfy` | the two per-variant tables, as a class with two maps |
| `Sharding` | `sharding.dfy` | the `--thread-i`/`--n-threads` check and the site filter |
| `Driver` | `driver.dfy` | the per-allele step and the site loop of `main` |

Some of the program's operations are not modelled in Dafny. They become parameters:

- Python's `int()` and `float()` are the `Numerals` functions, giving the strings they read and the values they produce.
- `os.access(path, os.R_OK)` is the predicate `readable`.
- The selection loop of `choose_samples` sees `get_bam_path` and the gVCF lookup through a locator function, a sample name to a `(bam, gvcf)` pair or the IOError's path. `choose_samples` passes `Locator(table, readable)`, which is `get_bam_path` on the info table.
- `get_minimal_representation` is the function `minrep`.
- SQLite's reading of text under INTEGER affinity is the function `asInteger`.

The three info-table dictionaries (BAM path, gVCF path, Include flag) are filled together from one file. They are modelled as one map from sample id to `SampleInfo`.

A Python dict is modelled as a map plus its keys in insertion order. This assumes insertion-ordered dicts, as in Python 3.7 and later. Under an interpreter with hash-ordered dicts, such as Python 2, the samples of a row can come out in a different order, and equal-GQ ties in `choose_samples` can then be broken differently.

A table with a unique index on the variant columns is a map from key to the remaining columns:

- `INSERT OR IGNORE` is `InsertOrIgnore`.
- The finishing `UPDATE` is `MarkFinished`.

The intervals table keeps its rows in insertion order because the region query returns rows. The region query `start <= pos AND end >= pos` follows SQLite's comparison of mixed storage classes. A start stored as text is never `<= pos`. An end stored as text is always `>= pos`.

The row decoder appears twice in the source. The copy in `generate_HC_realigned_bams.py` (lines 134-205) is the one `main` uses. It differs from `exac_vcf.py` only in names and in printing instead of logging, so one model covers both.

Where the description of the system and the code disagree, the model follows the code:

- A failed HaplotypeCaller run is printed and the variant is still marked finished by the final `UPDATE`.
- The private table's "sample name" columns hold the chosen samples' BAM paths (`paths[0]`), not sample names.
- A header sample id unknown to the info table is only reported when the parser is created. `choose_samples` raises later if such a sample passes the genotype filters.

## Model

| member | source | states |
|---|---|---|
| VcfRow.IndexOf | utils/exac_vcf.py:47-49 | `list.index`: the result is the first position holding `x`; no result means `x` is absent |
| VcfRow.FormatFields | utils/exac_vcf.py:46-49 | `GT:AD:DP:GQ:PL` splits on `:` into its five subfield names |
| VcfRow.FormatPositions | utils/exac_vcf.py:47-49 | GT, DP and GQ sit at positions 0, 2 and 3 of the layout |
| VcfRow.UnknownIdsExact | utils/exac_vcf.py:40-44 | the reported ids are exactly the header sample ids missing from the info table |
| VcfRow.CreateRowParser | utils/exac_vcf.py:25-49 | succeeds iff the header has `#CHROM`, `POS`, `REF`, `ALT`, `FORMAT` in their columns; the parser keeps columns 9.. as sample ids with GT/GQ/DP at 0/3/2; unknown ids are reported, not fatal |
| VcfRow.PutWellFormed | utils/exac_vcf.py:92 | assigning into the sample dict keeps its keys distinct and matching its key order |
| VcfRow.DecodeGenotype | utils/exac_vcf.py:67-90 | a `./.` GT is always accepted as a no-call; any other GT is accepted iff it has two integer alleles, each at most the ALT count, and the GQ (and, when GQ parses, the DP) subfield exists; GQ and DP are the parsed values, or both 0 when either does not parse |
| VcfRow.ErrorPersists | utils/exac_vcf.py:65-92 | once a sample column fails, the row fails with that column's error |
| VcfRow.FillGenotypes | utils/exac_vcf.py:65-92 | the sample loop yields the dict or the first column error |
| VcfRow.ParseRow | utils/exac_vcf.py:51-94 | the decoder checks the column count, FORMAT and the sample count, then fills the dict |
| VcfRow.DecodeColumnsOk | utils/exac_vcf.py:65-92 | the columns decode iff each column decodes on its own |
| VcfRow.DecodeColumnsKeys | utils/exac_vcf.py:65-92 | the dict's keys are exactly the header sample ids |
| VcfRow.DecodeColumnsOrder | utils/exac_vcf.py:65-92 | with distinct ids, the keys come out in column order |
| VcfRow.DecodeColumnsValues | utils/exac_vcf.py:65-92 | each id holds the call of the last column carrying it |
| VcfRow.LastOccurrenceExists | utils/exac_vcf.py:65-92 | every id in the header has a last column |
| VcfRow.DecodeRowSound | utils/exac_vcf.py:51-94 | a decoded row keeps CHROM/POS/REF, splits ALT on commas, maps every sample id to its column's call, and keeps allele indices within the ALT count |
| VcfRow.DecodeRowValues | utils/exac_vcf.py:64-92 | each header sample id holds the call decoded from its last column |
| VcfRow.DecodeRowOkIff | utils/exac_vcf.py:56-92 | a row is rejected iff it is short, has the wrong FORMAT, has the wrong sample count, or has a failing sample column |
| SampleSelector.ParseZygosity | utils/generate_HC_realigned_bams.py:82 | only `"het"` and `"hom"` are accepted classes |
| SampleSelector.VersionSegmentLength | utils/generate_HC_realigned_bams.py:56 | a `/v<1-2 digits>/` match has length 4 or 5, or there is no match |
| SampleSelector.GetBamPath | utils/generate_HC_realigned_bams.py:39-62 | succeeds iff the rewritten path is readable, returning that path; the error names the table's path |
| SampleSelector.CurrentVersionUnchanged | utils/generate_HC_realigned_bams.py:56 | the version rewrite leaves a path without a `/vN/` segment unchanged |
| SampleSelector.RelocationUnchanged | utils/generate_HC_realigned_bams.py:48-56 | a path needing no relocation, rename or version rewrite is used as is |
| SampleSelector.LocatorFinds | utils/generate_HC_realigned_bams.py:123-125 | for a sample in the table, the locator yields exactly `get_bam_path`'s path and the table's gVCF |
| SampleSelector.Pick | utils/generate_HC_realigned_bams.py:116-129 | the greedy loop takes at most `room` samples |
| SampleSelector.RelevantInTable | utils/generate_HC_realigned_bams.py:86-106 | every candidate is in the info table |
| SampleSelector.RankedPermutes | utils/generate_HC_realigned_bams.py:114 | the GQ sort is a permutation |
| SampleSelector.InTablePermutation | utils/generate_HC_realigned_bams.py:114 | a permutation of in-table candidates stays in the table |
| SampleSelector.RelevantErrorPersists | utils/generate_HC_realigned_bams.py:105 | once the filter raises, the error stays the first one |
| SampleSelector.ChooseSamples | utils/generate_HC_realigned_bams.py:65-131 | the method returns the pairs of `Selection`, or its error |
| SampleSelector.RelevantSamples | utils/generate_HC_realigned_bams.py:84-106 | the filter loop computes `Relevant` |
| SampleSelector.TakeLocated | utils/generate_HC_realigned_bams.py:110-131 | the while loop returns the pairs `Pick` chooses from the ranked list with room for five |
| SampleSelector.InsertSorted | utils/generate_HC_realigned_bams.py:114 | insertion keeps the list in non-increasing GQ order |
| SampleSelector.RankedSorted | utils/generate_HC_realigned_bams.py:114 | `sort(key=GQ, reverse=True)` gives non-increasing GQ |
| SampleSelector.InsertWithGq | utils/generate_HC_realigned_bams.py:114 | insertion puts an equal-GQ candidate after those already ranked |
| SampleSelector.RankedStable | utils/generate_HC_realigned_bams.py:114 | the sort is stable: equal-GQ samples keep their dict order |
| SampleSelector.PickIsPrefixOfLocated | utils/generate_HC_realigned_bams.py:116-129 | the loop takes the first `room` locatable candidates |
| SampleSelector.PickFromCandidates | utils/generate_HC_realigned_bams.py:116-129 | each chosen sample is a candidate, with the pair the locator gave for it |
| SampleSelector.PickFromTable | utils/generate_HC_realigned_bams.py:116-129 | with the info table's locator, each chosen sample is in the table, with the BAM `get_bam_path` located and its table gVCF |
| SampleSelector.PickBounded | utils/generate_HC_realigned_bams.py:116-129 | no chosen GQ exceeds a bound on the candidates' GQ |
| SampleSelector.PickSorted | utils/generate_HC_realigned_bams.py:112-129 | the chosen samples come in non-increasing GQ |
| SampleSelector.RelevantExact | utils/generate_HC_realigned_bams.py:86-106 | the candidates are exactly the included samples of the requested class at the allele with DP >= 10 and GQ >= 20, each once, with their GQ |
| SampleSelector.RelevantFails | utils/generate_HC_realigned_bams.py:86-106 | the filter raises iff a qualifying sample is missing from the info table, and the error names it |
| SampleSelector.SelectionSound | utils/generate_HC_realigned_bams.py:65-131 | at most five samples; each qualifies, is included, has its located BAM and table gVCF; GQ non-increasing |
| SampleSelector.ChosenQualify | utils/generate_HC_realigned_bams.py:84-131 | every chosen sample passes the class and DP/GQ filters, is included, keeps its GQ, and carries its located BAM and table gVCF |
| SampleSelector.SelectionIsTopLocated | utils/generate_HC_realigned_bams.py:109-131 | the result is the first five locatable samples of the stable GQ ranking |
| SampleSelector.SelectionFails | utils/generate_HC_realigned_bams.py:65-131 | raises iff the class is neither het nor hom, or a qualifying sample is unknown |
| SampleSelector.RelevantNone | utils/generate_HC_realigned_bams.py:86-104 | no qualifying genotype gives no candidates |
| SampleSelector.AllNoCallsSelectNothing | utils/generate_HC_realigned_bams.py:86-88 | a site of no-calls selects nothing |
| SampleSelector.MultiallelicHetCall | utils/generate_HC_realigned_bams.py:90-99 | a 1/2 call is het for both alleles and hom for neither |
| SampleSelector.UnreadableQualityNeverChosen | utils/exac_vcf.py:83-90 | a call whose GQ or DP does not parse never passes the filter |
| Text.NatToStringValue | utils/generate_HC_realigned_bams.py:214-221 | `%s` of a position reads back as that number |
| Text.NatToStringInjective | utils/generate_HC_realigned_bams.py:214-221 | different sample indices give different digit strings |
| Text.ZeroPaddedValue | utils/generate_HC_realigned_bams.py:212-213 | `%02d`/`%04d` of a value below 10^w reads back as that value |
| OutputPath.Prefix | utils/generate_HC_realigned_bams.py:217-218 | `[:75]` is a prefix of at most 75 characters, all of a shorter string |
| OutputPath.ZeroPaddedLastTwo | utils/generate_HC_realigned_bams.py:212-213 | the last two digits of `%04d` are `%02d` of the value mod 100 |
| OutputPath.SubdirShape | utils/generate_HC_realigned_bams.py:212-213 | the subdirectory has seven characters: `/` third, every other character a digit |
| OutputPath.SubdirLevel1 | utils/generate_HC_realigned_bams.py:212 | the first level names `pos % 100` |
| OutputPath.SubdirLevel2 | utils/generate_HC_realigned_bams.py:213 | the second level names `pos % 10000` |
| OutputPath.SubdirNested | utils/generate_HC_realigned_bams.py:212-213 | the second-level name ends with the first-level name |
| OutputPath.SubdirLayout | utils/generate_HC_realigned_bams.py:212-213 | the subdirectory's shape and both levels' values |
| OutputPath.JoinRelative | utils/generate_HC_realigned_bams.py:223 | `os.path.join` with a relative part appends it after one separator |
| OutputPath.RelativeBamPathRoundTrip | utils/generate_HC_realigned_bams.py:604 | the relative path is relative, and joining it to any output dir gives the full path |
| OutputPath.SampleTagInjective | utils/generate_HC_realigned_bams.py:214-221 | same-length classes and indices are recoverable from the file tail |
| OutputPath.RelativeBamPathsDistinct | utils/generate_HC_realigned_bams.py:607-611 | different (class, index) give different relative paths |
| OutputPath.ReassembledBamPathsDistinct | utils/generate_HC_realigned_bams.py:210-223 | different (class, index) give different full paths |
| OutputPath.TrailingSlashKeepsAbsolutePath | utils/generate_HC_realigned_bams.py:604 | with an output dir ending in `/`, the as-written relative path is the full path |
| OutputPath.DefaultDirStoresAbsolutePath | utils/generate_HC_realigned_bams.py:690-691 | with the default output dir, the stored path is absolute and is not the relative path |
| CallingIntervals.LineFieldsOfJoin | utils/generate_HC_realigned_bams.py:378 | stripping and splitting a tab-joined line gives back its fields |
| CallingIntervals.DecodeLineRoundTrip | utils/generate_HC_realigned_bams.py:377-379 | a five-field line decodes to the row of its fields, start and end under INTEGER affinity |
| CallingIntervals.ErrorPersists | utils/generate_HC_realigned_bams.py:374-379 | the first failing line's error is final |
| CallingIntervals.InsertLines | utils/generate_HC_realigned_bams.py:374-380 | the line loop computes `LoadFrom` |
| CallingIntervals.LoadIntervals | utils/generate_HC_realigned_bams.py:355-396 | loading is the line loop with the five-field decoder |
| CallingIntervals.LoadSound | utils/generate_HC_realigned_bams.py:372-379 | one row per non-`@` line, in order, each decoded from its line; (chrom, start, end) unique |
| CallingIntervals.LoadRowsFromLines | utils/generate_HC_realigned_bams.py:374-379 | the rows are the decoded data lines |
| CallingIntervals.RowOrigin | utils/generate_HC_realigned_bams.py:374-379 | every row comes from a data line |
| CallingIntervals.RowOf | utils/generate_HC_realigned_bams.py:374-379 | every data line yields a row |
| CallingIntervals.LoadFails | utils/generate_HC_realigned_bams.py:373-379 | loading fails iff some data line has the wrong field count or repeats an earlier (chrom, start, end) |
| CallingIntervals.LoadErrorCause | utils/generate_HC_realigned_bams.py:373-379 | the error is a line's own field-count error or the repeated key |
| CallingIntervals.MatchesCount | utils/generate_HC_realigned_bams.py:519-520 | the query returns only covering rows of the table; none iff no row covers; exactly the row when one row covers; at least two when two rows cover |
| CallingIntervals.LookupExact | utils/generate_HC_realigned_bams.py:517-525 | succeeds iff exactly one row covers the variant, returning that row; "no region" iff none covers |
| CallingIntervals.LookupEncloses | utils/generate_HC_realigned_bams.py:519-525 | the region found has the variant's chromosome and start <= pos <= end |
| Sharding.ZeroBasedThread | utils/generate_HC_realigned_bams.py:721-722 | accepted iff 1 <= thread_i <= n_threads; the 0-based index is thread_i - 1 |
| Sharding.ExactlyOneRun | utils/generate_HC_realigned_bams.py:489-490 | each site belongs to exactly one thread |
| Sharding.ShardSitesExact | utils/generate_HC_realigned_bams.py:488-494 | a run handles exactly the 1-based sites k with k mod n = thread, in increasing order |
| Sharding.ShardsPartition | utils/generate_HC_realigned_bams.py:488-494 | the runs partition the sites |
| VariantLedger.InsertOrIgnoreEffect | utils/generate_HC_realigned_bams.py:567 | an insert adds the key; an existing row is kept; other rows are unchanged |
| VariantLedger.InsertOrIgnoreIdempotent | utils/generate_HC_realigned_bams.py:567 | a second insert of the same key changes nothing |
| VariantLedger.MarkFinishedEffect | utils/generate_HC_realigned_bams.py:665-672 | the update sets finished and the path lists, keeps the counts, and touches no other row |
| VariantLedger.Ledger.constructor | utils/generate_HC_realigned_bams.py:458-485 | both tables start empty and consistent |
| VariantLedger.Ledger.InsertProgress | utils/generate_HC_realigned_bams.py:562-568 | the public table after `INSERT OR IGNORE` |
| VariantLedger.Ledger.InsertMetadata | utils/generate_HC_realigned_bams.py:570-578 | the private table after `INSERT OR IGNORE` |
| VariantLedger.Ledger.Finish | utils/generate_HC_realigned_bams.py:665-672 | the public table after the finishing `UPDATE` |
| Driver.Bams | utils/generate_HC_realigned_bams.py:574-575 | the first path of each pair, in order |
| Driver.RelativePaths | utils/generate_HC_realigned_bams.py:589-604 | the i-th path is the relative path of sample i of the class |
| Driver.PlanShape | utils/generate_HC_realigned_bams.py:498-580 | skip iff both selections are empty; a record counts at most five of each class and carries the region |
| Driver.RelativePathsDistinct | utils/generate_HC_realigned_bams.py:607-611 | the het and hom paths of a variant never repeat |
| Driver.ApplyRecord | utils/generate_HC_realigned_bams.py:562-672 | the key ends up in both tables and finished with the new paths; a first visit stores the counts; a repeat keeps the old counts and metadata; other variants are untouched |
| Driver.ApplyPreservesConsistency | utils/generate_HC_realigned_bams.py:498-672 | every step keeps both tables on the same keys, every public row with a sample and finished |
| Driver.ClassPaths | utils/generate_HC_realigned_bams.py:589-610 | the inner loop yields the class's relative paths and reports no duplicate |
| Driver.OutputPaths | utils/generate_HC_realigned_bams.py:583-610 | the uniqueness check never fires |
| Driver.ProcessAllele | utils/generate_HC_realigned_bams.py:498-672 | an error leaves the tables unchanged; otherwise the tables are the plan applied, reporting whether the allele was added |
| Driver.DecodedGenotypesWellFormed | utils/generate_HC_realigned_bams.py:496 | a decoded row's genotype dict is well formed |
| Driver.ApplyRowCount | utils/generate_HC_realigned_bams.py:562-672 | applying a plan adds at most one public row, and none for a skip |
| Driver.PlannerPlausible | utils/generate_HC_realigned_bams.py:498-560 | the driver's step records a variant only with at least one chosen sample |
| Driver.SiteEffectBalanced | utils/generate_HC_realigned_bams.py:498-560 | the allele loop keeps `all_alleles == alleles_to_be_added == hom_ref_alleles + added_to_db` |
| Driver.SiteEffectConsistent | utils/generate_HC_realigned_bams.py:498-672 | the allele loop keeps both tables on the same keys, every public row with a sample and finished |
| Driver.SiteEffectRowCount | utils/generate_HC_realigned_bams.py:498-672 | the allele loop adds no more public rows than it counts as added |
| Driver.SiteEffectSites | utils/generate_HC_realigned_bams.py:498-500 | the allele loop leaves the site counter alone |
| Driver.ShardEffectBalanced | utils/generate_HC_realigned_bams.py:487-672 | the site loop keeps the allele counters balanced |
| Driver.ShardEffectConsistent | utils/generate_HC_realigned_bams.py:487-672 | the site loop keeps the tables consistent |
| Driver.ShardEffectRowCount | utils/generate_HC_realigned_bams.py:487-672 | the site loop adds no more public rows than it counts as added |
| Driver.ShardEffectSites | utils/generate_HC_realigned_bams.py:487-488 | a run that does not stop counts every row it reads as a site |
| Driver.SiteFailureStays | utils/generate_HC_realigned_bams.py:498-560 | once an allele raises, later alleles change nothing |
| Driver.ShardFailureStays | utils/generate_HC_realigned_bams.py:487-496 | once a site raises, later rows change nothing |
| Driver.SiteKeys | utils/generate_HC_realigned_bams.py:498-672 | after the allele loop, a key is in the public table iff it was before or one of the site's alleles records it |
| Driver.ShardKeys | utils/generate_HC_realigned_bams.py:487-672 | after the site loop, a key is in the public table iff it was before or an allele of a handled site records it |
| Driver.SiteFailureSite | utils/generate_HC_realigned_bams.py:498-560 | an allele loop that stops does so with an allele error at its own site |
| Driver.ShardFailureCause | utils/generate_HC_realigned_bams.py:487-560 | a run stops only at a site of its shard, because that row does not decode or one of its alleles raises |
| Driver.ShardFromEmpty | utils/generate_HC_realigned_bams.py:456-672 | from empty tables: consistent tables, balanced counters, no more public rows than added alleles; a finished run counts every site and its public keys are exactly those recorded by handled sites |
| Driver.RecordedExactly | utils/generate_HC_realigned_bams.py:498-580 | an ALT allele is recorded iff its region is unique and both selections succeed with at least one sample, under its minimal-representation key |
| Driver.CountAllele | utils/generate_HC_realigned_bams.py:498-672 | one allele iteration: the tables and counters are one `AlleleStep` of the driver's step |
| Driver.ProcessSite | utils/generate_HC_realigned_bams.py:498-672 | the allele loop: the tables and the result are `SiteEffect` over every ALT allele of the row |
| Driver.CountSite | utils/generate_HC_realigned_bams.py:487-672 | one site iteration: count the site, skip other shards, decode, run the allele loop; the tables and the result are one `SiteStep` |
| Driver.RunShard | utils/generate_HC_realigned_bams.py:487-672 | the site loop: the tables and the result are `ShardEffect` over every row, and the tables stay consistent |
| Driver.ApplyPlanAsWritten | utils/generate_HC_realigned_bams.py:567-672 | the step as written raises exactly for a recorded allele with a chosen sample when neither `--run-haplotype-caller` nor `--create-links-to-original-bams` is given; otherwise its tables are those of `ApplyPlan` |
| Driver.UnsetFlagsLeaveRowUnfinished | utils/generate_HC_realigned_bams.py:567-672 | with neither switch, a new recorded allele raises at the read of `gvcfs_match` with both rows inserted, its public row unfinished with empty path columns, and the tables inconsistent |
| Driver.SetFlagsKeepConsistency | utils/generate_HC_realigned_bams.py:612-672 | with either switch, or for a skipped allele, the step as written does not raise, equals `ApplyPlan` and keeps the tables consistent |
| Driver.Run | utils/generate_HC_realigned_bams.py:420-740 | the thread check, the intervals load, the header check, then the site loop over empty tables: the tables and the result are `MainEffect`, and the tables are consistent |

## Left out

- HaplotypeCaller, `check_gvcf`, symlinks, `postprocess_bam` and IGV screenshots (lines 233-350, 612-663): external processes and file-system side effects. The final `UPDATE` does not use their results.
- Driver.Run: the model describes runs given `--run-haplotype-caller` or `--create-links-to-original-bams`. Both switches are off by default (lines 697-698). With neither, `gvcfs_match` is never assigned (line 627 is its only assignment), so line 636 raises UnboundLocalError on the first chosen sample of the first recorded allele. That is after both INSERTs (lines 567, 577) and before the UPDATE (lines 665-672). The run stops with that public row unfinished and its path columns empty. `Driver.ApplyPlanAsWritten` and `Driver.UnsetFlagsLeaveRowUnfinished` capture this for one allele; `Run`, `RunShard`, `Consistent` and `ShardFromEmpty` describe the step that finishes; see Findings.
- Copying the database files to the output directory, the progress prints, and the `"SITE"` prints: I/O only.
- The statistics query after loading the intervals (lines 390-394) is not modelled. It only prints, and it raises on an empty intervals file because `int(None)` fails.
- `parse_exac_calling_intervals` with a file database (lines 364-388): only the in-memory database that `main` uses is modelled.
- Reading the info table (lines 401-418) is not modelled. The model takes the resulting table as input.
- Opening the VCF with tabix and the `chrom` argument (lines 428-433, 731-737): the rows are a sequence of field lists.
- Argument parsing, the retry loop over file checks (lines 711-728), and the database file names derived from `--chrom`/`--thread-i`: these are not part of this model.
- `get_minimal_representation` is not part of this model. It is the function parameter `minrep`.
- `int()`, `float()` and SQLite's INTEGER affinity are abstract function parameters, not re-implemented.
- `float()` results are reals, with no floating-point rounding.
- `os.access` is the predicate `readable`. The model does not capture that the file system can change between calls.
- `use_calling_intervals` is always true in the script (line 703). The model keeps both branches of lines 517-529.
- Python 2 versus 3 differences are not modelled: a non-integer GT allele is one `NonIntegerAllele` error, whatever exception class a given interpreter raises at line 81.
- Counters other than the five tallied by the site and allele loops, such as `bam_generated`, are not modelled.
- SampleSelector.SelectionIsTopLocated: equal-GQ ties follow the header's column order, which is the genotype dict's insertion order. An interpreter whose dicts are not insertion-ordered need not follow it.
- Driver.PlanShape: it does not restate the private table's joined sample-path columns. A BAM path containing a comma would make the joined column ambiguous.
- Driver.ProcessAllele: the relative paths are computed with the corrected `OutputPath.RelativeBamPath`, not the as-written `replace`; see Findings.
- Driver.RelativePaths: uses the corrected `OutputPath.RelativeBamPath`, not the as-written `replace` at line 604; see Findings.
- Driver.ClassPaths: the paths it yields are the corrected relative paths, not those of the as-written `replace` at line 604; see Findings.
- Driver.OutputPaths: the uniqueness check runs on the corrected relative paths, not those of the as-written `replace` at line 604; see Findings.
- Driver.RelativePathsDistinct: distinctness is proved for the corrected relative paths, not for those of the as-written `replace` at line 604; see Findings.
- CallingIntervals.Stored: text that SQLite would store as REAL under INTEGER affinity, such as `1.5`, is kept as a text cell; the model has no REAL cell.
- The per-allele and per-site iterations (`Driver.CountAllele`, `Driver.CountSite`) are separate methods only for the proof; the source runs them inline in `main`.

## Findings

| source | as written | input that shows it | evidently intended | confidence | as-written member | corrected member |
|---|---|---|---|---|---|---|
| utils/generate_HC_realigned_bams.py:604 | `output_bam_path.replace(args.bam_output_dir+"/", "")` strips `<dir>/` from the joined path | the default `--bam-output-dir` `/broad/hptmp/exac_readviz_backend/` (ends in `/`): `os.path.join` adds no second `/`, so `<dir>//` never occurs and the full absolute path is stored | the path relative to the output directory, `NN/NNNN/<file>.bam` | not executed | OutputPath.DefaultDirStoresAbsolutePath | OutputPath.RelativeBamPathRoundTrip |
| utils/generate_HC_realigned_bams.py:636 | the symlink test reads `gvcfs_match`, which only line 627 assigns, inside the `--run-haplotype-caller` branch | the default switches (both `store_true`, lines 697-698) and any allele with a chosen het or hom-alt sample: UnboundLocalError after the two INSERTs, leaving the public row with `finished=0` | the symlink test only applies after HaplotypeCaller ran, so the allele is finished by the UPDATE at lines 665-672 | not executed | Driver.UnsetFlagsLeaveRowUnfinished | Driver.ApplyPreservesConsistency |
