/** What the pull loop does with the raw records of one page: each record is kept as a
    row, skipped (counted) or raises; a page is a run of such steps in order. */
module Sifting {
  import opened Wrappers
  import opened Json
  import opened Extract

  /** `Safe` is the loader of FDA/fda_to_sql_safe.py (retried calls, bad records skipped);
      `Plain` the two scripts without retry or skip handling, where every failure raises. */
  datatype Variant = Safe | Plain

  /** What one raw record does to the accumulator. */
  datatype Step = Keep(row: DrugRecord) | Skip | Crash

  /** What extraction yields for a record: its row, or None when the extractor discards
      it or it is not a dict at all. */
  function RowOf(drug: JValue): Option<DrugRecord>
  {
    if drug.JObj? then ExtractRecord(drug) else None
  }

  /** What a loader does with a record, given what extraction yields for it. */
  function StepFor(variant: Variant, drug: JValue, row: Option<DrugRecord>): Step
  {
    if !drug.JObj? then Crash
    else match row
      case Some(r) => Keep(r)
      case None => if variant.Safe? then Skip else Crash
  }

  /** Safe: a discarded record is skipped, while a record that is not a dict raises again
      inside the extractor's own exception handler. Plain: every failure raises. */
  function RecordStep(variant: Variant, drug: JValue): (s: Step)
    ensures s.Crash? <==> !drug.JObj? || (variant.Plain? && ExtractRecord(drug).None?)
    ensures s.Skip? <==> variant.Safe? && drug.JObj? && ExtractRecord(drug).None?
    ensures s.Keep? ==> drug.JObj? && ExtractRecord(drug) == Some(s.row)
  {
    StepFor(variant, drug, RowOf(drug))
  }

  /** The record step of a variant, as a value. */
  function StepOf(variant: Variant): JValue -> Step
  {
    drug => RecordStep(variant, drug)
  }

  /** The rows kept from a run of records, and how many were skipped. */
  datatype Sifted = Sifted(kept: seq<DrugRecord>, skipped: nat)

  /** The accumulator after one more step; None once a record has raised. */
  function Then(acc: Option<Sifted>, s: Step): Option<Sifted>
  {
    match acc
    case None => None
    case Some(a) =>
      match s
      case Keep(row) => Some(Sifted(a.kept + [row], a.skipped))
      case Skip => Some(Sifted(a.kept, a.skipped + 1))
      case Crash => None
  }

  /** Records run through a step function in order: the rows kept and the number
      skipped, or None when one raises. Every record is either kept or skipped. */
  function Sift(step: JValue -> Step, drugs: seq<JValue>): (r: Option<Sifted>)
    decreases |drugs|
    ensures r.Some? ==> |r.value.kept| + r.value.skipped == |drugs|
  {
    if drugs == [] then Some(Sifted([], 0))
    else Then(Sift(step, drugs[..|drugs| - 1]), step(drugs[|drugs| - 1]))
  }

  /** Sifting with a given step, as a value. */
  function SiftBy(step: JValue -> Step): seq<JValue> -> Option<Sifted>
  {
    drugs => Sift(step, drugs)
  }

  /** A page is dropped as a whole exactly when one of its records raises. */
  lemma {:induction false} SiftFailsIffCrash(step: JValue -> Step, drugs: seq<JValue>)
    ensures Sift(step, drugs).None? <==> exists i :: 0 <= i < |drugs| && step(drugs[i]).Crash?
    decreases |drugs|
  {
    if drugs != [] {
      var front := drugs[..|drugs| - 1];
      SiftFailsIffCrash(step, front);
      assert forall i :: 0 <= i < |front| ==> front[i] == drugs[i];
    }
  }

  /** A step function that treats each record as StepFor says, for an extraction `ext`. */
  ghost predicate Follows(variant: Variant, step: JValue -> Step, ext: JValue -> Option<DrugRecord>)
  {
    forall drug :: step(drug) == StepFor(variant, drug, ext(drug))
  }

  /** The loaders' own record steps follow the extractor. */
  lemma StepOfFollows(variant: Variant)
    ensures Follows(variant, StepOf(variant), RowOf)
  {
  }

  /** The rows `ext` yields for the dicts of a run, in order. */
  function KeptBy(ext: JValue -> Option<DrugRecord>, drugs: seq<JValue>): seq<DrugRecord>
  {
    if drugs == [] then []
    else
      var last := drugs[|drugs| - 1];
      KeptBy(ext, drugs[..|drugs| - 1]) + if last.JObj? && ext(last).Some? then [ext(last).value] else []
  }

  /** How many dicts of a run `ext` yields nothing for. */
  function DroppedBy(ext: JValue -> Option<DrugRecord>, drugs: seq<JValue>): nat
  {
    if drugs == [] then 0
    else
      var last := drugs[|drugs| - 1];
      DroppedBy(ext, drugs[..|drugs| - 1]) + if last.JObj? && ext(last).None? then 1 else 0
  }

  /** A Safe step function keeps what `ext` yields and counts the dicts it yields nothing
      for; a run fails only when some record is not a dict. */
  lemma {:induction false} SafeSiftBy(step: JValue -> Step, ext: JValue -> Option<DrugRecord>, drugs: seq<JValue>)
    requires Follows(Safe, step, ext)
    ensures Sift(step, drugs)
         == if forall i :: 0 <= i < |drugs| ==> drugs[i].JObj?
            then Some(Sifted(KeptBy(ext, drugs), DroppedBy(ext, drugs))) else None
    decreases |drugs|
  {
    if drugs != [] {
      var front, last := drugs[..|drugs| - 1], drugs[|drugs| - 1];
      SafeSiftBy(step, ext, front);
      assert step(last) == StepFor(Safe, last, ext(last));
      assert forall i :: 0 <= i < |front| ==> front[i] == drugs[i];
      assert Sift(step, drugs) == Then(Sift(step, front), step(last));
      if !last.JObj? {
        assert !(forall i :: 0 <= i < |drugs| ==> drugs[i].JObj?) by { assert !drugs[|drugs| - 1].JObj?; }
      } else {
        assert (forall i :: 0 <= i < |drugs| ==> drugs[i].JObj?) <==> (forall i :: 0 <= i < |front| ==> front[i].JObj?);
        if ext(last).Some? {
          assert KeptBy(ext, drugs) == KeptBy(ext, front) + [ext(last).value];
          assert DroppedBy(ext, drugs) == DroppedBy(ext, front);
        } else {
          assert KeptBy(ext, drugs) == KeptBy(ext, front);
          assert DroppedBy(ext, drugs) == DroppedBy(ext, front) + 1;
        }
      }
    }
  }

  /** A Plain step function keeps one row per record; a run fails as soon as one record
      is not a dict or `ext` yields nothing for it. */
  lemma {:induction false} PlainSiftBy(step: JValue -> Step, ext: JValue -> Option<DrugRecord>, drugs: seq<JValue>)
    requires Follows(Plain, step, ext)
    ensures Sift(step, drugs)
         == if forall i :: 0 <= i < |drugs| ==> drugs[i].JObj? && ext(drugs[i]).Some?
            then Some(Sifted(KeptBy(ext, drugs), 0)) else None
    decreases |drugs|
  {
    if drugs != [] {
      var front, last := drugs[..|drugs| - 1], drugs[|drugs| - 1];
      PlainSiftBy(step, ext, front);
      assert step(last) == StepFor(Plain, last, ext(last));
      assert forall i :: 0 <= i < |front| ==> front[i] == drugs[i];
      assert drugs == front + [last];
    }
  }

  /** When `ext` yields a row for every record, row i is what it yields for record i. */
  lemma {:induction false} KeptByAll(ext: JValue -> Option<DrugRecord>, drugs: seq<JValue>)
    requires forall i :: 0 <= i < |drugs| ==> drugs[i].JObj? && ext(drugs[i]).Some?
    ensures |KeptBy(ext, drugs)| == |drugs|
    ensures forall i :: 0 <= i < |drugs| ==> KeptBy(ext, drugs)[i] == ext(drugs[i]).value
    decreases |drugs|
  {
    if drugs != [] {
      var front := drugs[..|drugs| - 1];
      assert forall i :: 0 <= i < |front| ==> front[i] == drugs[i];
      KeptByAll(ext, front);
    }
  }

  /** A record the extractor turns into a row. */
  predicate Extractable(drug: JValue)
  {
    drug.JObj? && ExtractRecord(drug).Some?
  }

  /** The rows of the extractable records, in order. */
  function Extracted(drugs: seq<JValue>): seq<DrugRecord>
  {
    KeptBy(RowOf, drugs)
  }

  /** How many records are dicts the extractor discards. */
  function Discarded(drugs: seq<JValue>): nat
  {
    DroppedBy(RowOf, drugs)
  }

  /** The Safe loader keeps the extractable records' rows and counts the discarded ones;
      a page fails only when some record is not a dict. */
  lemma SafeSift(drugs: seq<JValue>)
    ensures Sift(StepOf(Safe), drugs)
         == if forall i :: 0 <= i < |drugs| ==> drugs[i].JObj?
            then Some(Sifted(Extracted(drugs), Discarded(drugs))) else None
  {
    StepOfFollows(Safe);
    SafeSiftBy(StepOf(Safe), RowOf, drugs);
  }

  /** The Plain loaders keep one row per record, in order; a page fails as soon as one
      record is not a dict or cannot be extracted. */
  lemma PlainSift(drugs: seq<JValue>)
    ensures Sift(StepOf(Plain), drugs)
         == if forall i :: 0 <= i < |drugs| ==> Extractable(drugs[i])
            then Some(Sifted(Extracted(drugs), 0)) else None
  {
    StepOfFollows(Plain);
    PlainSiftBy(StepOf(Plain), RowOf, drugs);
    assert (forall i :: 0 <= i < |drugs| ==> Extractable(drugs[i]))
       <==> (forall i :: 0 <= i < |drugs| ==> drugs[i].JObj? && RowOf(drugs[i]).Some?);
  }

  /** When every record is extractable, Extracted is the extractor applied to each. */
  lemma ExtractedAll(drugs: seq<JValue>)
    requires forall i :: 0 <= i < |drugs| ==> Extractable(drugs[i])
    ensures |Extracted(drugs)| == |drugs|
    ensures forall i :: 0 <= i < |drugs| ==> Extractable(drugs[i]) && Extracted(drugs)[i] == ExtractRecord(drugs[i]).value
  {
    KeptByAll(RowOf, drugs);
  }

  /** Sifting two runs one after the other. */
  function Join(a: Option<Sifted>, b: Option<Sifted>): Option<Sifted>
  {
    if a.Some? && b.Some? then Some(Sifted(a.value.kept + b.value.kept, a.value.skipped + b.value.skipped)) else None
  }

  lemma JoinThen(x: Option<Sifted>, y: Option<Sifted>, s: Step)
    ensures Then(Join(x, y), s) == Join(x, Then(y, s))
  {
    if x.Some? && y.Some? && s.Keep? {
      assert x.value.kept + (y.value.kept + [s.row]) == (x.value.kept + y.value.kept) + [s.row];
    }
  }

  /** Sifting is compositional: a concatenation sifts to the two halves joined. */
  lemma {:induction false} SiftAppend(step: JValue -> Step, a: seq<JValue>, b: seq<JValue>)
    ensures Sift(step, a + b) == Join(Sift(step, a), Sift(step, b))
    decreases |b|
  {
    if b == [] {
      assert a + b == a;
      if Sift(step, a).Some? {
        assert Sift(step, a).value.kept + [] == Sift(step, a).value.kept;
      }
    } else {
      var b' := b[..|b| - 1];
      assert (a + b)[..|a + b| - 1] == a + b';
      assert (a + b)[|a + b| - 1] == b[|b| - 1];
      SiftAppend(step, a, b');
      JoinThen(Sift(step, a), Sift(step, b'), step(b[|b| - 1]));
    }
  }

  lemma SiftSnoc(step: JValue -> Step, drugs: seq<JValue>, i: nat)
    requires i < |drugs|
    ensures Sift(step, drugs[..i + 1]) == Then(Sift(step, drugs[..i]), step(drugs[i]))
  {
    assert drugs[..i + 1][..i] == drugs[..i];
  }

  /** Once a record raises, the page as a whole raises. */
  lemma SiftCrashSpreads(step: JValue -> Step, drugs: seq<JValue>, i: nat)
    requires i < |drugs| && Sift(step, drugs[..i + 1]).None?
    ensures Sift(step, drugs).None?
  {
    SiftAppend(step, drugs[..i + 1], drugs[i + 1..]);
    assert drugs[..i + 1] + drugs[i + 1..] == drugs;
  }

  /** `record = extract_record(drug)` and what the loop does with it: append the row,
      or count the record as skipped; `ok` is false when the record raised. */
  method SiftRecord(variant: Variant, drug: JValue, rows: seq<DrugRecord>, skipped: nat)
    returns (ok: bool, rows': seq<DrugRecord>, skipped': nat)
    ensures ok <==> !RecordStep(variant, drug).Crash?
    ensures ok ==> Then(Some(Sifted(rows, skipped)), RecordStep(variant, drug)) == Some(Sifted(rows', skipped'))
  {
    if !drug.JObj? {
      return false, rows, skipped;
    }
    var record := ExtractRecord(drug);
    if record.Some? {
      return true, rows + [record.value], skipped;
    } else if variant.Safe? {
      return true, rows, skipped + 1;
    }
    return false, rows, skipped;
  }

  /** `for drug in data['results']:` -- each record in order through SiftRecord; `ok` is
      false when a record raised. */
  method SiftPage(variant: Variant, drugs: seq<JValue>, rows: seq<DrugRecord>, skipped: nat)
    returns (ok: bool, rows': seq<DrugRecord>, skipped': nat)
    ensures ok <==> Sift(StepOf(variant), drugs).Some?
    ensures ok ==> rows' == rows + Sift(StepOf(variant), drugs).value.kept
    ensures ok ==> skipped' == skipped + Sift(StepOf(variant), drugs).value.skipped
  {
    ghost var step := StepOf(variant);
    ghost var acc := Some(Sifted(rows, skipped));
    rows', skipped' := rows, skipped;
    assert drugs[..0] == [] && rows + [] == rows;
    for i := 0 to |drugs|
      invariant Join(acc, Sift(step, drugs[..i])) == Some(Sifted(rows', skipped'))
    {
      SiftSnoc(step, drugs, i);
      JoinThen(acc, Sift(step, drugs[..i]), step(drugs[i]));
      assert step(drugs[i]) == RecordStep(variant, drugs[i]);
      var kept;
      kept, rows', skipped' := SiftRecord(variant, drugs[i], rows', skipped');
      if !kept {
        SiftCrashSpreads(step, drugs, i);
        return false, rows', skipped';
      }
    }
    assert drugs[..|drugs|] == drugs;
    ok := true;
  }
}
