/** The two per-variant tables the driver keeps. Both are keyed by the variant in minimal
    representation under a unique index: the public table records how many samples were chosen,
    the reassembled BAM paths and whether the variant is finished; the private table records the
    calling region and the original BAM paths of the chosen samples. */
module VariantLedger {
  import opened CallingIntervals

  /** `(chrom, minrep_pos, minrep_ref, minrep_alt)`: the columns of both unique indexes. */
  datatype VariantKey = VariantKey(chrom: string, pos: int, ref: string, alt: string)

  /** The other columns of the public table. */
  datatype ProgressRow = ProgressRow(nHet: nat, nHomAlt: nat, reassembledBamsHet: string, reassembledBamsHom: string, finished: bool)

  /** The other columns of the private table. The sample-name columns hold the chosen samples'
      original BAM paths. */
  datatype MetadataRow = MetadataRow(callingRegionStart: Cell, callingRegionEnd: Cell, hetSampleNames: string, homAltSampleNames: string)

  /** `INSERT OR IGNORE`: a row whose key is already present is dropped. A unique index makes a
      table a map from key to the remaining columns. */
  function InsertOrIgnore<R>(table: map<VariantKey, R>, key: VariantKey, row: R): map<VariantKey, R>
  {
    if key in table then table else table[key := row]
  }

  /** `UPDATE t SET finished=1, reassembled_bams_het=?, reassembled_bams_hom=? WHERE <key>`. */
  function MarkFinished(table: map<VariantKey, ProgressRow>, key: VariantKey, bamsHet: string, bamsHom: string)
    : map<VariantKey, ProgressRow>
  {
    if key in table then table[key := table[key].(finished := true, reassembledBamsHet := bamsHet, reassembledBamsHom := bamsHom)]
    else table
  }

  /** Inserting adds the key; an existing key keeps its row, a new key gets the given row, and
      every other key keeps its row. */
  lemma InsertOrIgnoreEffect<R>(table: map<VariantKey, R>, key: VariantKey, row: R)
    ensures var t := InsertOrIgnore(table, key, row);
      && t.Keys == table.Keys + {key}
      && t[key] == (if key in table then table[key] else row)
      && forall k :: k in table && k != key ==> t[k] == table[k]
  {
  }

  /** Inserting the same key a second time, with any row, changes nothing. */
  lemma InsertOrIgnoreIdempotent<R>(table: map<VariantKey, R>, key: VariantKey, row1: R, row2: R)
    ensures InsertOrIgnore(InsertOrIgnore(table, key, row1), key, row2) == InsertOrIgnore(table, key, row1)
  {
  }

  /** The update sets the flag and the two path lists on the row with the key, keeps its counts,
      and leaves every other row and the key set alone. */
  lemma MarkFinishedEffect(table: map<VariantKey, ProgressRow>, key: VariantKey, bamsHet: string, bamsHom: string)
    ensures var t := MarkFinished(table, key, bamsHet, bamsHom);
      && t.Keys == table.Keys
      && (key in table ==>
            && t[key].finished
            && t[key].reassembledBamsHet == bamsHet && t[key].reassembledBamsHom == bamsHom
            && t[key].nHet == table[key].nHet && t[key].nHomAlt == table[key].nHomAlt)
      && forall k :: k in table && k != key ==> t[k] == table[k]
  {
  }

  /** The invariant of the two tables between variants: the same keys in both, and every public
      row has at least one chosen sample and is finished. */
  predicate Consistent(progress: map<VariantKey, ProgressRow>, metadata: map<VariantKey, MetadataRow>)
  {
    && progress.Keys == metadata.Keys
    && forall k :: k in progress ==> progress[k].nHet + progress[k].nHomAlt > 0 && progress[k].finished
  }

  /** The two database connections. */
  class Ledger {
    var progress: map<VariantKey, ProgressRow>
    var metadata: map<VariantKey, MetadataRow>

    predicate Valid()
      reads this
    {
      Consistent(progress, metadata)
    }

    /** Fresh, empty tables (the driver deletes any previous database file first). */
    constructor()
      ensures progress == map[] && metadata == map[]
      ensures Valid()
    {
      progress := map[];
      metadata := map[];
    }

    /** `INSERT OR IGNORE` into the public table. */
    method InsertProgress(key: VariantKey, row: ProgressRow)
      modifies this
      ensures progress == InsertOrIgnore(old(progress), key, row)
      ensures metadata == old(metadata)
    {
      progress := InsertOrIgnore(progress, key, row);
    }

    /** `INSERT OR IGNORE` into the private table. */
    method InsertMetadata(key: VariantKey, row: MetadataRow)
      modifies this
      ensures metadata == InsertOrIgnore(old(metadata), key, row)
      ensures progress == old(progress)
    {
      metadata := InsertOrIgnore(metadata, key, row);
    }

    /** The finishing `UPDATE` of the public table. */
    method Finish(key: VariantKey, bamsHet: string, bamsHom: string)
      modifies this
      ensures progress == MarkFinished(old(progress), key, bamsHet, bamsHom)
      ensures metadata == old(metadata)
    {
      progress := MarkFinished(progress, key, bamsHet, bamsHom);
    }
  }
}
