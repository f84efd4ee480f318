/**
  The self-repairing save of a delivery zone (delivery.py). The live table may
  lack columns the editor writes and demand columns it has never heard of; the
  loop mends its own row from the refusals, though a type error does not name
  its column.
*/
module ZoneRepair {
  import opened Wrappers

  // ---------------------------------------------------------------- rows and tables

  datatype Value = Whole(n: int) | Flag(b: bool) | Text(s: string)

  type Row = map<string, Value>

  /** A live column: which values its type takes, and whether it must be given one. */
  datatype Column = Column(accepts: Value -> bool, required: bool)

  type Table = map<string, Column>

  datatype Answer = Accepted | Unknown(column: string) | Null(column: string) | WrongType

  predicate IsUnknown(table: Table, row: Row, c: string)
  {
    c in row && c !in table
  }

  predicate IsWrong(table: Table, row: Row, c: string)
  {
    c in row && c in table && !table[c].accepts(row[c])
  }

  predicate IsMissing(table: Table, row: Row, c: string)
  {
    c in table && table[c].required && c !in row
  }

  function UnknownIn(table: Table, row: Row): set<string>
  {
    set c | c in row && IsUnknown(table, row, c)
  }

  function WrongIn(table: Table, row: Row): set<string>
  {
    set c | c in row && IsWrong(table, row, c)
  }

  function MissingIn(table: Table, row: Row): set<string>
  {
    set c | c in table && IsMissing(table, row, c)
  }

  ghost predicate NoneUnknown(table: Table, row: Row) { forall c :: !IsUnknown(table, row, c) }

  ghost predicate NoneWrong(table: Table, row: Row) { forall c :: !IsWrong(table, row, c) }

  ghost predicate NoneMissing(table: Table, row: Row) { forall c :: !IsMissing(table, row, c) }

  ghost predicate Takes(table: Table, row: Row)
  {
    NoneUnknown(table, row) && NoneWrong(table, row) && NoneMissing(table, row)
  }

  /** The engine names an unknown column first, then objects to a type, then to a missing value. */
  ghost predicate Answers(table: Table, row: Row, answer: Answer)
  {
    match answer
    case Unknown(c) => IsUnknown(table, row, c)
    case WrongType => NoneUnknown(table, row) && !NoneWrong(table, row)
    case Null(c) => NoneUnknown(table, row) && NoneWrong(table, row) && IsMissing(table, row, c)
    case Accepted => Takes(table, row)
  }

  // -------------------------------------------------------------------- best guesses

  datatype Zone = Zone(id: string, name: string, currency: string, kind: string, fareMin: int, fareMax: int,
                       active: bool, sortOrder: int, note: string)

  function RowOf(z: Zone): Row
  {
    map["id" := Text(z.id), "name" := Text(z.name), "currency" := Text(z.currency), "kind" := Text(z.kind),
        "fare_min" := Whole(z.fareMin), "fare_max" := Whole(z.fareMax), "active" := Flag(z.active),
        "sort_order" := Whole(z.sortOrder), "note" := Text(z.note)]
  }

  predicate Within(part: string, whole: string)
  {
    exists i :: 0 <= i <= |whole| && part <= whole[i..]
  }

  predicate AnyWithin(parts: seq<string>, whole: string)
  {
    exists i :: 0 <= i < |parts| && Within(parts[i], whole)
  }

  const KIND_WORDS: seq<string> := ["kind", "type", "mode"]
  const SORT_WORDS: seq<string> := ["sort", "rank", "position", "order"]
  const NOTE_WORDS: seq<string> := ["note", "comment", "description", "remark"]
  const FLAG_WORDS: seq<string> :=
    ["active", "available", "require", "enabled", "visible", "flag", "public", "confirmed"]

  predicate LooksBoolean(c: string)
  {
    || AnyWithin(FLAG_WORDS, c)
    || "is_" <= c || "has_" <= c
  }

  function Lower(s: string): string
  {
    if s == "" then ""
    else [if 'A' <= s[0] <= 'Z' then (s[0] as int + 32) as char else s[0]] + Lower(s[1..])
  }

  const NAME_LIKE: seq<string> := ["zone_name", "name", "zone", "title", "label", "display_name"]

  /** The best guess for a column the editor never writes. */
  function Guess(column: string, z: Zone): Value
  {
    var c := Lower(column);
    if c in NAME_LIKE then Text(z.name)
    else if Within("min", c) then Whole(z.fareMin)
    else if Within("max", c) then Whole(z.fareMax)
    else if Within("currency", c) then Text(z.currency)
    else if AnyWithin(KIND_WORDS, c) then Text(z.kind)
    else if AnyWithin(SORT_WORDS, c) then Whole(z.sortOrder)
    else if AnyWithin(NOTE_WORDS, c) then Text(z.note)
    else if LooksBoolean(c) then Flag(z.active)
    else Text(z.name)
  }

  function GuessFor(z: Zone): string -> Value
  {
    (c: string) => Guess(c, z)
  }

  const CHAIN: seq<Value> := [Whole(0), Flag(false), Text("")]

  /** The two columns that are never dropped. */
  predicate Critical(c: string) { c == "id" || c == "name" }

  // ------------------------------------------------------------------ what is learned

  /** Columns to give, columns to leave out, and constants that satisfied a typed column. */
  datatype Shape = Shape(fill: seq<string>, drop: seq<string>, values: map<string, Value>)

  const FRESH := Shape([], [], map[])

  function Filler(shape: Shape, guess: string -> Value, c: string): Value
  {
    if c in shape.values then shape.values[c] else guess(c)
  }

  /** The row a save starts from. */
  function Start(shape: Shape, row: Row, guess: string -> Value): Row
  {
    var kept := map c | c in row && (Critical(c) || c !in shape.drop) :: row[c];
    kept + map c | c in shape.fill && c !in kept :: Filler(shape, guess, c)
  }

  /** A column is noted once; the engine never reports one without a name. */
  function Remember(columns: seq<string>, c: string): seq<string>
  {
    if c in columns then columns else columns + [c]
  }

  // ------------------------------------------------------------------- the repair loop

  datatype Failure = Unsatisfiable(column: string, missing: bool) | TooMany(column: string) | EngineError

  /** The loop's working state: the row, the column last touched, the last one retyped, the tries. */
  datatype Draft = Draft(pending: Row, lastColumn: Option<string>, lastTyped: Option<string>,
                         typedStep: map<string, nat>)

  /** One save: the live table, the row it starts from, the best guesses and the shape known before. */
  datatype Job = Job(table: Table, first: Row, guess: string -> Value, shape: Shape) {
    /** The table demands this column and the first row does not give it. */
    predicate Demands(c: string)
    {
      IsMissing(table, first, c)
    }

    function Fill(c: string): Value
    {
      Filler(shape, guess, c)
    }

    /** A demanded column whose first filling is of the wrong type. */
    predicate Retypes(c: string)
    {
      Demands(c) && !table[c].accepts(Fill(c))
    }

    function Retyped(): set<string>
    {
      set c | c in table && Retypes(c)
    }

    function Bound(): nat
    {
      2 * (if |first| > 1 then |first| else 1) + 8
    }
  }

  predicate Keeps(row: Row, sent: Row)
  {
    forall c :: c in row && Critical(c) ==> c in sent && sent[c] == row[c]
  }

  predicate TakesConstant(column: Column)
  {
    exists k :: 0 <= k < |CHAIN| && column.accepts(CHAIN[k])
  }

  /**
    A table the loop can satisfy: it has the critical columns, takes what the first
    row says, and each column it demands besides takes one of the three constants.
    The bound is the loop's own.
  */
  ghost predicate Repairable(job: Job)
  {
    && (forall c :: c in job.first && Critical(c) ==> c in job.table)
    && NoneWrong(job.table, job.first)
    && (forall c :: job.Demands(c) ==> TakesConstant(job.table[c]))
    && |UnknownIn(job.table, job.first)| + 4 * |MissingIn(job.table, job.first)| + 1 <= job.Bound()
  }

  /** The row starts with a known column of the wrong type: nothing to blame it on. */
  ghost predicate Misfilled(job: Job)
  {
    NoneUnknown(job.table, job.first) && !NoneWrong(job.table, job.first)
  }

  /** What a successful save leaves behind: the row sent and the shape learned. */
  ghost predicate Landed(job: Job, after: Shape, sent: Row)
  {
    && Takes(job.table, sent)
    && (forall c :: c in sent <==> (c in job.first && c in job.table) || job.Demands(c))
    && (forall c :: c in sent && c in job.first ==> sent[c] == job.first[c])
    && (forall c :: job.Demands(c) && !job.Retypes(c) ==> sent[c] == job.Fill(c))
    && (forall c :: c in after.fill <==> c in job.shape.fill || job.Demands(c))
    && (forall c :: c in after.drop <==> c in job.shape.drop || IsUnknown(job.table, job.first, c))
    && if (forall c :: !job.Retypes(c)) then after.values == job.shape.values
       else exists t :: job.Retypes(t) && t in sent && after.values == job.shape.values[t := sent[t]]
  }

  // ----------------------------------------------------------- the loop's invariant

  /** The tries of a retyped column so far, all but the last refused. */
  predicate Walked(column: Column, value: Value, step: nat)
  {
    && step < |CHAIN| && value == CHAIN[step]
    && forall k :: 0 <= k < step ==> !column.accepts(CHAIN[k])
  }

  /** Only demanded columns were added and only unknown ones removed. */
  ghost predicate InBounds(job: Job, d: Draft)
  {
    && (forall c :: c in d.pending ==> c in job.first || job.Demands(c))
    && (forall c :: c in d.pending && c in job.first ==> d.pending[c] == job.first[c])
    && (forall c :: c in job.first && c in job.table ==> c in d.pending)
  }

  /** A demanded column holds its first filling, or the constant its tries have come to. */
  ghost predicate InStep(job: Job, d: Draft)
  {
    && (forall c :: c in d.typedStep ==> c in d.pending && job.Retypes(c)
                                         && Walked(job.table[c], d.pending[c], d.typedStep[c]))
    && (forall c :: job.Demands(c) && c in d.pending && c !in d.typedStep ==> d.pending[c] == job.Fill(c))
    && if d.typedStep == map[] then d.lastTyped.None? else d.lastTyped.Some? && d.lastTyped.value in d.typedStep
  }

  /** A wrong value can only sit in the column last touched, after every unknown column is gone. */
  ghost predicate Blamed(job: Job, d: Draft)
  {
    && (forall c :: IsWrong(job.table, d.pending, c) ==> d.lastColumn == Some(c))
    && (NoneWrong(job.table, d.pending) || NoneUnknown(job.table, d.pending))
  }

  /** The shape records exactly the additions and removals. */
  ghost predicate Noted(job: Job, shape: Shape, d: Draft)
  {
    && shape.values == job.shape.values
    && (forall c :: c in shape.fill <==> c in job.shape.fill || (job.Demands(c) && c in d.pending))
    && (forall c :: c in shape.drop <==> c in job.shape.drop || (c in job.first && c !in d.pending))
  }

  ghost predicate Sound(job: Job, shape: Shape, d: Draft)
  {
    InBounds(job, d) && InStep(job, d) && Blamed(job, d) && Noted(job, shape, d)
  }

  /** Constants still to try on the column last touched. */
  function Retries(d: Draft): int
  {
    if d.lastColumn.Some? && d.lastColumn.value in d.typedStep then 2 - (d.typedStep[d.lastColumn.value] as int) else 3
  }

  /** Attempts that remain to be spent. */
  ghost function Left(job: Job, d: Draft): int
  {
    |UnknownIn(job.table, d.pending)| + 4 * |MissingIn(job.table, d.pending)|
    + (if NoneWrong(job.table, d.pending) then 0 else Retries(d)) + 1
  }

  function Begin(job: Job): Draft
  {
    Draft(job.first, None, None, map[])
  }

  function Filled(d: Draft, c: string, value: Value): Draft
  {
    d.(pending := d.pending[c := value], lastColumn := Some(c))
  }

  function Dropped(d: Draft, c: string): Draft
  {
    d.(pending := d.pending - {c}, lastColumn := Some(c))
  }

  function NextStep(d: Draft, c: string): nat
  {
    if c in d.typedStep then d.typedStep[c] + 1 else 0
  }

  function Retype(d: Draft, c: string): Draft
    requires NextStep(d, c) < |CHAIN|
  {
    Draft(d.pending[c := CHAIN[NextStep(d, c)]], Some(c), Some(c), d.typedStep[c := NextStep(d, c)])
  }

  lemma BeginIsSound(job: Job)
    requires Repairable(job)
    ensures Sound(job, job.shape, Begin(job)) && Left(job, Begin(job)) <= job.Bound()
  {
  }

  lemma FillStaysInStep(job: Job, d: Draft, c: string)
    requires InBounds(job, d) && InStep(job, d) && job.Demands(c) && c !in d.pending
    ensures InBounds(job, Filled(d, c, job.Fill(c))) && InStep(job, Filled(d, c, job.Fill(c)))
  {
  }

  lemma FillBlamesRight(job: Job, d: Draft, c: string, value: Value)
    requires Answers(job.table, d.pending, Null(c))
    ensures Blamed(job, Filled(d, c, value))
  {
    var after := Filled(d, c, value);
    assert NoneUnknown(job.table, after.pending) by {
      assert forall k :: IsUnknown(job.table, after.pending, k) ==> IsUnknown(job.table, d.pending, k);
    }
    assert forall k :: k != c && IsWrong(job.table, after.pending, k) ==> IsWrong(job.table, d.pending, k);
  }

  lemma FillKeepsSound(job: Job, shape: Shape, d: Draft, c: string)
    requires Sound(job, shape, d) && Answers(job.table, d.pending, Null(c))
    ensures Sound(job, shape.(fill := Remember(shape.fill, c)), Filled(d, c, Filler(shape, job.guess, c)))
  {
    assert c in job.first ==> c in d.pending;
    assert Filler(shape, job.guess, c) == job.Fill(c);
    FillStaysInStep(job, d, c);
    FillBlamesRight(job, d, c, job.Fill(c));
  }

  lemma FillSpends(job: Job, d: Draft, c: string, value: Value)
    requires Answers(job.table, d.pending, Null(c)) && c !in d.typedStep
    ensures Left(job, Filled(d, c, value)) < Left(job, d)
  {
    var after := Filled(d, c, value);
    assert MissingIn(job.table, after.pending) == MissingIn(job.table, d.pending) - {c};
    assert c in MissingIn(job.table, d.pending);
    assert UnknownIn(job.table, after.pending) == UnknownIn(job.table, d.pending);
  }

  lemma DropKeepsSound(job: Job, shape: Shape, d: Draft, c: string)
    requires Sound(job, shape, d) && Answers(job.table, d.pending, Unknown(c))
    ensures Sound(job, shape.(drop := Remember(shape.drop, c)), Dropped(d, c))
    ensures c in job.first
  {
    var after := Dropped(d, c);
    assert InBounds(job, after) && InStep(job, after);
    assert NoneWrong(job.table, d.pending);
    assert forall k :: IsWrong(job.table, after.pending, k) ==> IsWrong(job.table, d.pending, k);
  }

  lemma DropSpends(job: Job, d: Draft, c: string)
    requires Answers(job.table, d.pending, Unknown(c)) && NoneWrong(job.table, d.pending)
    ensures Left(job, Dropped(d, c)) < Left(job, d)
  {
    var after := Dropped(d, c);
    assert UnknownIn(job.table, after.pending) == UnknownIn(job.table, d.pending) - {c};
    assert c in UnknownIn(job.table, d.pending);
    assert MissingIn(job.table, after.pending) == MissingIn(job.table, d.pending);
    assert forall k :: IsWrong(job.table, after.pending, k) ==> IsWrong(job.table, d.pending, k);
  }

  lemma ConstantIsLeft(column: Column, value: Value, step: nat)
    requires TakesConstant(column) && Walked(column, value, step) && !column.accepts(value)
    ensures step + 1 < |CHAIN| && forall k :: 0 <= k < step + 1 ==> !column.accepts(CHAIN[k])
  {
  }

  /** A type error is always the fault of the column last touched, and a constant is left for it. */
  lemma WrongColumnIsLast(job: Job, shape: Shape, d: Draft)
    requires Repairable(job) && Sound(job, shape, d) && Answers(job.table, d.pending, WrongType)
    ensures d.lastColumn.Some?
    ensures forall c :: IsWrong(job.table, d.pending, c) <==> c == d.lastColumn.value
    ensures job.Retypes(d.lastColumn.value)
    ensures NextStep(d, d.lastColumn.value) < |CHAIN|
    ensures forall k :: 0 <= k < NextStep(d, d.lastColumn.value) ==>
              !job.table[d.lastColumn.value].accepts(CHAIN[k])
  {
    var c :| IsWrong(job.table, d.pending, c);
    assert d.lastColumn == Some(c);
    assert !IsWrong(job.table, job.first, c);
    assert job.Demands(c);
    assert TakesConstant(job.table[c]);
    if c in d.typedStep {
      ConstantIsLeft(job.table[c], d.pending[c], d.typedStep[c]);
    }
  }

  lemma RetypeStaysInStep(job: Job, d: Draft, c: string)
    requires InBounds(job, d) && InStep(job, d) && c in d.pending && job.Retypes(c)
    requires NextStep(d, c) < |CHAIN| && Walked(job.table[c], CHAIN[NextStep(d, c)], NextStep(d, c))
    ensures InBounds(job, Retype(d, c)) && InStep(job, Retype(d, c))
  {
    assert c in Retype(d, c).typedStep;
  }

  lemma RetypeBlamesRight(job: Job, d: Draft, c: string)
    requires Blamed(job, d) && d.lastColumn == Some(c) && c in d.pending
    requires NextStep(d, c) < |CHAIN| && NoneUnknown(job.table, d.pending)
    ensures Blamed(job, Retype(d, c))
  {
    var after := Retype(d, c);
    assert NoneUnknown(job.table, after.pending) by {
      assert forall k :: IsUnknown(job.table, after.pending, k) ==> IsUnknown(job.table, d.pending, k);
    }
    assert forall k :: k != c && IsWrong(job.table, after.pending, k) ==> IsWrong(job.table, d.pending, k);
  }

  lemma RetypeKeepsSound(job: Job, shape: Shape, d: Draft)
    requires Repairable(job) && Sound(job, shape, d) && Answers(job.table, d.pending, WrongType)
    ensures d.lastColumn.Some? && NextStep(d, d.lastColumn.value) < |CHAIN|
    ensures Sound(job, shape, Retype(d, d.lastColumn.value))
    ensures Left(job, Retype(d, d.lastColumn.value)) < Left(job, d)
  {
    WrongColumnIsLast(job, shape, d);
    var c := d.lastColumn.value;
    assert IsWrong(job.table, d.pending, c);
    RetypeStaysInStep(job, d, c);
    RetypeBlamesRight(job, d, c);
    RetypeSpends(job, d, c);
  }

  lemma RetypeSpends(job: Job, d: Draft, c: string)
    requires d.lastColumn == Some(c) && IsWrong(job.table, d.pending, c) && NextStep(d, c) < |CHAIN|
    ensures Left(job, Retype(d, c)) < Left(job, d)
  {
    var after := Retype(d, c);
    assert MissingIn(job.table, after.pending) == MissingIn(job.table, d.pending);
    assert UnknownIn(job.table, after.pending) == UnknownIn(job.table, d.pending);
  }

  /** One refusal turned into one repair, or the reason to give up. */
  function Mended(shape: Shape, guess: string -> Value, d: Draft, answer: Answer): Result<(Shape, Draft), Failure>
  {
    match answer
    case Accepted => Ok((shape, d))
    case Null(c) =>
      var value := Filler(shape, guess, c);
      if c in d.pending && d.pending[c] == value then Err(Unsatisfiable(c, false))
      else Ok((shape.(fill := Remember(shape.fill, c)), Filled(d, c, value)))
    case Unknown(c) =>
      if Critical(c) || c !in d.pending then Err(Unsatisfiable(c, c !in d.pending))
      else Ok((shape.(drop := Remember(shape.drop, c)), Dropped(d, c)))
    case WrongType =>
      if d.lastColumn.None? then Err(EngineError)
      else if NextStep(d, d.lastColumn.value) >= |CHAIN| then Err(Unsatisfiable(d.lastColumn.value, false))
      else Ok((shape, Retype(d, d.lastColumn.value)))
  }

  /** A repair that keeps the loop sound and costs at least one attempt. */
  ghost predicate Mends(job: Job, d: Draft, mended: Result<(Shape, Draft), Failure>)
  {
    mended.Ok? && Sound(job, mended.value.0, mended.value.1) && Left(job, mended.value.1) < Left(job, d)
  }

  lemma NullIsMended(job: Job, shape: Shape, d: Draft, c: string)
    requires Sound(job, shape, d) && Answers(job.table, d.pending, Null(c))
    ensures Mends(job, d, Mended(shape, job.guess, d, Null(c)))
  {
    FillKeepsSound(job, shape, d, c);
    FillSpends(job, d, c, Filler(shape, job.guess, c));
    assert c !in d.pending;
  }

  lemma UnknownIsMended(job: Job, shape: Shape, d: Draft, c: string)
    requires Repairable(job) && Sound(job, shape, d) && Answers(job.table, d.pending, Unknown(c))
    ensures Mends(job, d, Mended(shape, job.guess, d, Unknown(c)))
  {
    DropKeepsSound(job, shape, d, c);
    DropSpends(job, d, c);
    assert !Critical(c);
  }

  lemma WrongTypeIsMended(job: Job, shape: Shape, d: Draft)
    requires Repairable(job) && Sound(job, shape, d) && Answers(job.table, d.pending, WrongType)
    ensures Mends(job, d, Mended(shape, job.guess, d, WrongType))
  {
    RetypeKeepsSound(job, shape, d);
    RetypeIsMend(job, shape, d);
    var (after, d') := (shape, Retype(d, d.lastColumn.value));
    assert Mended(shape, job.guess, d, WrongType) == Ok((after, d'));
    assert Sound(job, after, d') && Left(job, d') < Left(job, d);
  }

  lemma RetypeIsMend(job: Job, shape: Shape, d: Draft)
    requires d.lastColumn.Some? && NextStep(d, d.lastColumn.value) < |CHAIN|
    ensures Mended(shape, job.guess, d, WrongType) == Ok((shape, Retype(d, d.lastColumn.value)))
  {
  }

  /**
    A type error after a dropped column is put down to that column, which comes back with
    a constant for it: the loop does not know that another column may be at fault.
  */
  lemma DroppedComesBack(shape: Shape, guess: string -> Value, d: Draft, c: string)
    requires c in d.pending && !Critical(c) && c !in d.typedStep
    ensures Mended(shape, guess, d, Unknown(c)).Ok?
    ensures var (shape', dropped) := Mended(shape, guess, d, Unknown(c)).value;
            && c !in dropped.pending && (forall x :: x in shape'.drop <==> x in shape.drop || x == c)
            && var again := Mended(shape', guess, dropped, WrongType);
               again.Ok? && again.value.1.pending == d.pending[c := CHAIN[0]]
  {
    assert (d.pending - {c})[c := CHAIN[0]] == d.pending[c := CHAIN[0]];
  }

  /** Whatever the engine answers, there is a repair. */
  lemma RepairKeepsSound(job: Job, shape: Shape, d: Draft, answer: Answer)
    requires Repairable(job) && Sound(job, shape, d) && Answers(job.table, d.pending, answer) && answer != Accepted
    ensures Mends(job, d, Mended(shape, job.guess, d, answer))
  {
    match answer
    case Null(c) => NullIsMended(job, shape, d, c);
    case Unknown(c) => UnknownIsMended(job, shape, d, c);
    case WrongType => WrongTypeIsMended(job, shape, d);
  }

  lemma SomethingIsLeft(job: Job, shape: Shape, d: Draft)
    requires Sound(job, shape, d)
    ensures Left(job, d) >= 1
  {
    if d.lastColumn.Some? && d.lastColumn.value in d.typedStep {
      var c := d.lastColumn.value;
      assert Walked(job.table[c], d.pending[c], d.typedStep[c]);
    }
  }

  /** The critical columns of the row are as they were, and are not up for repair. */
  predicate Guarded(row: Row, d: Draft)
  {
    && Keeps(row, d.pending)
    && (d.lastColumn.Some? ==> !Critical(d.lastColumn.value) || d.lastColumn.value !in row)
  }

  lemma RepairKeepsGuard(shape: Shape, guess: string -> Value, row: Row, d: Draft, answer: Answer)
    requires Guarded(row, d) && Mended(shape, guess, d, answer).Ok?
    requires answer.Null? ==> answer.column !in d.pending
    ensures Guarded(row, Mended(shape, guess, d, answer).value.1)
  {
  }

  lemma StartGuarded(shape: Shape, row: Row, guess: string -> Value)
    ensures Guarded(row, Draft(Start(shape, row, guess), None, None, map[]))
  {
  }

  /** What holds before every attempt of the loop. */
  ghost predicate Running(job: Job, shape: Shape, d: Draft, attempts: nat)
  {
    && attempts <= job.Bound()
    && (Repairable(job) ==> Sound(job, shape, d) && attempts + Left(job, d) <= job.Bound())
    && if attempts == 0 then d == Begin(job) && shape == job.shape
       else !Takes(job.table, job.first) && !Misfilled(job)
  }

  lemma RunningAtFirst(job: Job)
    ensures Running(job, job.shape, Begin(job), 0)
  {
    if Repairable(job) {
      BeginIsSound(job);
    }
  }

  /** What a save of a row comes to. */
  ghost predicate IsOutcome(job: Job, row: Row, r: Result<Row, Failure>, attempts: nat, after: Shape)
  {
    && attempts <= job.Bound()
    && (r.Ok? ==> Takes(job.table, r.value) && Keeps(row, r.value))
    && (Repairable(job) ==> r.Ok? && Landed(job, after, r.value))
    && (Takes(job.table, job.first) ==> r == Ok(job.first) && attempts == 1)
    && (Misfilled(job) ==> r == Err(EngineError) && attempts == 1 && after == job.shape)
  }

  lemma GivenUp(job: Job, row: Row, shape: Shape, d: Draft, attempts: nat, e: Failure)
    requires Running(job, shape, d, attempts) && attempts == job.Bound()
    ensures IsOutcome(job, row, Err(e), attempts, shape)
  {
    if Repairable(job) {
      SomethingIsLeft(job, shape, d);
    }
  }

  lemma RunningOn(job: Job, row: Row, shape: Shape, d: Draft, attempts: nat, answer: Answer)
    requires Running(job, shape, d, attempts) && attempts < job.Bound()
    requires Answers(job.table, d.pending, answer) && answer != Accepted
    ensures match Mended(shape, job.guess, d, answer)
            case Ok((shape', d')) => Running(job, shape', d', attempts + 1)
            case Err(e) => IsOutcome(job, row, Err(e), attempts + 1, shape)
  {
    if Repairable(job) {
      RepairKeepsSound(job, shape, d, answer);
    }
    AnswerIsExclusive(job.table, d.pending, answer);
  }

  lemma LandedIsOutcome(
      job: Job, row: Row, shape: Shape, d: Draft, attempts: nat, r: Result<Row, Failure>, after: Shape)
    requires Running(job, shape, d, attempts) && attempts < job.Bound() && Takes(job.table, d.pending)
    requires Keeps(row, d.pending) && (r.Ok? ==> r.value == d.pending)
    requires d.lastTyped.None? ==> r.Ok?
    requires Repairable(job) && Sound(job, shape, d) ==> r.Ok? && Landed(job, after, d.pending)
    ensures IsOutcome(job, row, r, attempts + 1, after)
  {
    AnswerIsExclusive(job.table, d.pending, Accepted);
  }

  /** A row that is taken is not refused, and one with only a wrong value is refused for it. */
  lemma AnswerIsExclusive(table: Table, row: Row, answer: Answer)
    requires Answers(table, row, answer)
    ensures Takes(table, row) <==> answer == Accepted
    ensures NoneUnknown(table, row) && !NoneWrong(table, row) <==> answer == WrongType
  {
  }

  function Learn(shape: Shape, d: Draft): Shape
  {
    if d.lastTyped.Some? && d.lastTyped.value in d.pending
    then shape.(values := shape.values[d.lastTyped.value := d.pending[d.lastTyped.value]]) else shape
  }

  lemma AcceptedLands(job: Job, shape: Shape, d: Draft)
    requires Sound(job, shape, d) && Takes(job.table, d.pending)
    ensures d.lastTyped.Some? ==> d.lastTyped.value in d.pending
    ensures Landed(job, Learn(shape, d), d.pending)
  {
    forall c
      ensures job.Demands(c) ==> c in d.pending
      ensures c in d.pending ==> c in job.table
      ensures job.Retypes(c) ==> c in d.typedStep
    {
      assert !IsMissing(job.table, d.pending, c) && !IsUnknown(job.table, d.pending, c);
      assert !IsWrong(job.table, d.pending, c);
    }
  }

  class ZoneWriter {
    var shape: Shape

    constructor ()
      ensures shape == FRESH
    {
      shape := FRESH;
    }

    method Send(table: Table, row: Row) returns (answer: Answer)
      ensures Answers(table, row, answer)
    {
      var unknown, wrong, missing := UnknownIn(table, row), WrongIn(table, row), MissingIn(table, row);
      assert forall c :: IsUnknown(table, row, c) ==> c in unknown;
      assert forall c :: IsWrong(table, row, c) ==> c in wrong;
      assert forall c :: IsMissing(table, row, c) ==> c in missing;
      if unknown != {} {
        var c :| c in unknown;
        return Unknown(c);
      }
      if wrong != {} {
        var c :| c in wrong;
        assert IsWrong(table, row, c);
        return WrongType;
      }
      if missing != {} {
        var c :| c in missing;
        return Null(c);
      }
      return Accepted;
    }

    /** Save one zone row, repairing it against the live table. */
    method Upsert(table: Table, row: Row, guess: string -> Value) returns (r: Result<Row, Failure>, attempts: nat)
      modifies this
      ensures IsOutcome(Job(table, Start(old(shape), row, guess), guess, old(shape)), row, r, attempts, shape)
    {
      var start := Start(shape, row, guess);
      ghost var job := Job(table, start, guess, shape);
      var d := Draft(start, None, None, map[]);
      attempts := 0;
      RunningAtFirst(job);
      StartGuarded(shape, row, guess);
      while attempts < 2 * (if |start| > 1 then |start| else 1) + 8
        invariant Running(job, shape, d, attempts) && Guarded(row, d)
        decreases job.Bound() - attempts
      {
        var answer := Send(table, d.pending);
        AnswerIsExclusive(table, d.pending, answer);
        if answer == Accepted {
          ghost var shape0 := shape;
          r := Land(job, d);
          LandedIsOutcome(job, row, shape0, d, attempts, r, shape);
          return r, attempts + 1;
        }
        RunningOn(job, row, shape, d, attempts, answer);
        ghost var before := shape;
        var mended := Mend(d, guess, answer);
        attempts := attempts + 1;
        if mended.Err? {
          return Err(mended.error), attempts;
        }
        RepairKeepsGuard(before, guess, row, d, answer);
        d := mended.value;
      }
      r := Err(TooMany(if d.lastColumn.Some? then d.lastColumn.value else "id"));
      GivenUp(job, row, shape, d, attempts, r.error);
    }

    /** Save a zone: its own columns, with best guesses for the legacy ones. */
    method SaveZone(table: Table, z: Zone) returns (r: Result<Row, Failure>, attempts: nat)
      modifies this
      ensures IsOutcome(Job(table, Start(old(shape), RowOf(z), GuessFor(z)), GuessFor(z), old(shape)),
                        RowOf(z), r, attempts, shape)
    {
      r, attempts := Upsert(table, RowOf(z), GuessFor(z));
    }

    /** The row stuck: remember the constant that the last retyped column took. */
    method Land(ghost job: Job, d: Draft) returns (r: Result<Row, Failure>)
      requires Takes(job.table, d.pending)
      modifies this
      ensures r.Ok? ==> r.value == d.pending
      ensures d.lastTyped.None? ==> r.Ok? && shape == old(shape)
      ensures Repairable(job) && Sound(job, old(shape), d) ==> r.Ok? && Landed(job, shape, d.pending)
    {
      if Sound(job, shape, d) {
        AcceptedLands(job, shape, d);
      }
      if d.lastTyped.Some? {
        if d.lastTyped.value !in d.pending {
          return Err(EngineError);
        }
        shape := shape.(values := shape.values[d.lastTyped.value := d.pending[d.lastTyped.value]]);
      }
      return Ok(d.pending);
    }

    /** One repair, recorded in the shape as it is made. */
    method Mend(d: Draft, guess: string -> Value, answer: Answer) returns (r: Result<Draft, Failure>)
      modifies this
      ensures match Mended(old(shape), guess, d, answer)
              case Ok((shape', d')) => r == Ok(d') && shape == shape'
              case Err(e) => r == Err(e) && shape == old(shape)
    {
      match answer
      case Accepted =>
        return Ok(d);
      case Null(c) =>
        var value := Filler(shape, guess, c);
        if c in d.pending && d.pending[c] == value {
          return Err(Unsatisfiable(c, false));
        }
        shape := shape.(fill := Remember(shape.fill, c));
        return Ok(d.(pending := d.pending[c := value], lastColumn := Some(c)));
      case Unknown(c) =>
        if Critical(c) || c !in d.pending {
          return Err(Unsatisfiable(c, c !in d.pending));
        }
        shape := shape.(drop := Remember(shape.drop, c));
        return Ok(d.(pending := d.pending - {c}, lastColumn := Some(c)));
      case WrongType =>
        if d.lastColumn.None? {
          return Err(EngineError);
        }
        var c := d.lastColumn.value;
        var step := NextStep(d, c);
        if step >= |CHAIN| {
          return Err(Unsatisfiable(c, false));
        }
        return Ok(Draft(d.pending[c := CHAIN[step]], Some(c), Some(c), d.typedStep[c := step]));
    }
  }

  // ------------------------------------------------------------------ the next save

  /** Every column the shape wants given exists in the table. */
  predicate LearnedFrom(table: Table, shape: Shape)
  {
    forall c :: c in shape.fill ==> c in table
  }

  /** The same zone saved again, starting from what was learned. */
  function Again(job: Job, row: Row, after: Shape): Job
  {
    Job(job.table, Start(after, row, job.guess), job.guess, after)
  }

  predicate IsKept(shape: Shape, row: Row, c: string)
  {
    c in row && (Critical(c) || c !in shape.drop)
  }

  lemma StartAt(shape: Shape, row: Row, guess: string -> Value, c: string)
    ensures c in Start(shape, row, guess) <==> IsKept(shape, row, c) || c in shape.fill
    ensures c in Start(shape, row, guess) ==>
              Start(shape, row, guess)[c] == if IsKept(shape, row, c) then row[c] else Filler(shape, guess, c)
  {
  }

  /** What a landed save says about one column. */
  predicate LandedAt(job: Job, after: Shape, sent: Row, c: string)
  {
    && (c in sent <==> (c in job.first && c in job.table) || job.Demands(c))
    && (c in after.fill <==> c in job.shape.fill || job.Demands(c))
    && (c in after.drop <==> c in job.shape.drop || (c in job.first && c !in job.table))
  }

  lemma AgainAt(job: Job, row: Row, after: Shape, sent: Row, c: string)
    requires job.first == Start(job.shape, row, job.guess) && LandedAt(job, after, sent, c)
    requires c in job.first && Critical(c) ==> c in job.table
    requires c in job.shape.fill ==> c in job.table
    requires c in job.first ==> (c in after.values <==> c in job.shape.values)
    requires c in job.first && c in after.values ==> after.values[c] == job.shape.values[c]
    ensures var first' := Again(job, row, after).first;
            && (c in first' <==> c in sent)
            && (c in sent ==> first'[c] == if c in job.first then job.first[c] else Filler(after, job.guess, c))
  {
    StartAt(job.shape, row, job.guess, c);
    StartAt(after, row, job.guess, c);
    assert job.Demands(c) ==> c in job.table && c !in job.first;
    var kept := IsKept(job.shape, row, c);
    assert c in job.first && c in job.table ==> (IsKept(after, row, c) <==> kept);
  }

  lemma WrongAgainAt(job: Job, first': Row, after: Shape, sent: Row, t: string, c: string)
    requires NoneWrong(job.table, job.first) && Landed(job, after, sent)
    requires (job.Retypes(t) && t in sent && after.values == job.shape.values[t := sent[t]])
             || ((forall c :: !job.Retypes(c)) && after.values == job.shape.values)
    requires c in first' <==> c in sent
    requires c in sent ==> first'[c] == if c in job.first then job.first[c] else Filler(after, job.guess, c)
    ensures !IsUnknown(job.table, first', c) && !IsMissing(job.table, first', c)
    ensures IsWrong(job.table, first', c) <==> job.Retypes(c) && c != t
  {
    assert !IsUnknown(job.table, sent, c) && !IsMissing(job.table, sent, c) && !IsWrong(job.table, sent, c);
    assert !IsWrong(job.table, job.first, c);
    assert c in sent && c !in job.first ==> job.Demands(c);
  }

  /** Only one constant is remembered: every other retyped column is wrong again. */
  lemma AgainIsWrongWhere(job: Job, row: Row, after: Shape, sent: Row, t: string)
    requires Repairable(job) && job.first == Start(job.shape, row, job.guess)
    requires Landed(job, after, sent) && LearnedFrom(job.table, job.shape)
    requires (job.Retypes(t) && t in sent && after.values == job.shape.values[t := sent[t]])
             || ((forall c :: !job.Retypes(c)) && after.values == job.shape.values)
    ensures NoneUnknown(job.table, Again(job, row, after).first)
    ensures NoneMissing(job.table, Again(job, row, after).first)
    ensures forall c :: IsWrong(job.table, Again(job, row, after).first, c) <==> job.Retypes(c) && c != t
  {
    var first' := Again(job, row, after).first;
    forall c
      ensures !IsUnknown(job.table, first', c) && !IsMissing(job.table, first', c)
      ensures IsWrong(job.table, first', c) <==> job.Retypes(c) && c != t
    {
      assert IsUnknown(job.table, job.first, c) <==> c in job.first && c !in job.table;
      assert LandedAt(job, after, sent, c);
      AgainAt(job, row, after, sent, c);
      WrongAgainAt(job, first', after, sent, t, c);
    }
  }

  /**
    A repeated save of a zone is taken at its first attempt exactly when at most
    one column had to be retyped; otherwise its first attempt is refused for a type
    nobody can be blamed for, and the save fails.
  */
  lemma RepeatSave(job: Job, row: Row, after: Shape, sent: Row)
    requires Repairable(job) && job.first == Start(job.shape, row, job.guess)
    requires Landed(job, after, sent) && LearnedFrom(job.table, job.shape)
    ensures Takes(job.table, Again(job, row, after).first) <==> |job.Retyped()| <= 1
    ensures Misfilled(Again(job, row, after)) <==> |job.Retyped()| > 1
    ensures LearnedFrom(job.table, after)
  {
    assert forall c :: job.Demands(c) ==> c in job.table;
    var t := "";
    if exists c :: job.Retypes(c) {
      t :| job.Retypes(t) && t in sent && after.values == job.shape.values[t := sent[t]];
    }
    AgainIsWrongWhere(job, row, after, sent, t);
    RetypedCount(job, Again(job, row, after).first, t);
  }

  lemma RetypedCount(job: Job, first': Row, t: string)
    requires job.Retypes(t) || forall c :: !job.Retypes(c)
    requires forall c :: IsWrong(job.table, first', c) <==> job.Retypes(c) && c != t
    ensures NoneWrong(job.table, first') <==> |job.Retyped()| <= 1
  {
    var retyped := job.Retyped();
    assert forall c :: job.Retypes(c) ==> c in retyped;
    assert forall c :: IsWrong(job.table, first', c) <==> c in retyped - {t};
    if t in retyped {
      OneOrMore(retyped, t);
    } else {
      assert retyped == {};
    }
    if retyped - {t} != {} {
      var c :| c in retyped - {t};
      assert IsWrong(job.table, first', c);
    }
  }

  lemma OneOrMore(s: set<string>, t: string)
    requires t in s
    ensures |s| <= 1 <==> s - {t} == {}
  {
    assert |s - {t}| == |s| - 1;
  }

  // ------------------------------------------------------------------- zones, saved first

  /** The first save of a zone by a worker. */
  function FreshJob(table: Table, z: Zone): Job
  {
    Job(table, RowOf(z), GuessFor(z), FRESH)
  }

  lemma FreshStart(row: Row, guess: string -> Value)
    ensures Start(FRESH, row, guess) == row
  {
    forall c ensures c in Start(FRESH, row, guess) <==> c in row {
      StartAt(FRESH, row, guess, c);
    }
    forall c | c in row ensures Start(FRESH, row, guess)[c] == row[c] {
      StartAt(FRESH, row, guess, c);
    }
  }

  lemma NineColumns(z: Zone)
    ensures |RowOf(z)| == 9 && "id" in RowOf(z) && "name" in RowOf(z)
  {
    assert RowOf(z).Keys == {"id", "name", "currency", "kind", "fare_min", "fare_max", "active", "sort_order", "note"};
  }

  /**
    Any table holding id and name whose current columns fit the zone, and whose
    legacy columns each take a constant, is satisfied by a fresh worker as long as
    drops + 4 * legacy + 1 stays within the 26 attempts; four legacy columns always do.
  */
  lemma FreshWorkerSucceeds(table: Table, z: Zone)
    requires "id" in table && "name" in table && NoneWrong(table, RowOf(z))
    requires forall c :: IsMissing(table, RowOf(z), c) ==> TakesConstant(table[c])
    requires |MissingIn(table, RowOf(z))| <= 4
             || |UnknownIn(table, RowOf(z))| + 4 * |MissingIn(table, RowOf(z))| + 1 <= 26
    ensures Repairable(FreshJob(table, z))
  {
    NineColumns(z);
    FitsTheAttempts(FreshJob(table, z));
  }

  lemma FitsTheAttempts(job: Job)
    requires |job.first| == 9 && NoneWrong(job.table, job.first)
    requires forall c :: Critical(c) ==> c in job.table && c in job.first
    requires forall c :: job.Demands(c) ==> TakesConstant(job.table[c])
    requires |MissingIn(job.table, job.first)| <= 4
             || |UnknownIn(job.table, job.first)| + 4 * |MissingIn(job.table, job.first)| + 1 <= 26
    ensures Repairable(job)
  {
    Smaller(UnknownIn(job.table, job.first), job.first.Keys);
  }

  lemma Smaller(a: set<string>, b: set<string>)
    requires a <= b
    ensures |a| <= |b|
  {
    assert b == a + (b - a);
  }

  lemma {:induction false} LowerPlain(s: string)
    requires forall i :: 0 <= i < |s| ==> !('A' <= s[i] <= 'Z')
    ensures Lower(s) == s
  {
    if s != "" {
      LowerPlain(s[1..]);
    }
  }

  /** Two legacy columns of a numeric kind: the first save lands, the second is refused at once. */
  lemma TwoRetypedColumnsFailNext(z: Zone, after: Shape, sent: Row)
    requires Landed(FreshJob(NumericLegacy(), z), after, sent)
    ensures Repairable(FreshJob(NumericLegacy(), z))
    ensures Misfilled(Again(FreshJob(NumericLegacy(), z), RowOf(z), after))
  {
    NumericLegacyRepairable(z);
    NumericLegacyRetypes(z);
    RetypedTwiceFails(FreshJob(NumericLegacy(), z), RowOf(z), after, sent, "zone", "title");
  }

  lemma RetypedTwiceFails(job: Job, row: Row, after: Shape, sent: Row, a: string, b: string)
    requires Repairable(job) && job.first == row && job.shape == FRESH && Landed(job, after, sent)
    requires a != b && {a, b} <= job.Retyped()
    ensures Misfilled(Again(job, row, after))
  {
    Smaller({a, b}, job.Retyped());
    FreshStart(row, job.guess);
    RepeatSave(job, row, after, sent);
  }

  lemma NumericLegacyRepairable(z: Zone)
    ensures Repairable(FreshJob(NumericLegacy(), z))
  {
    NumericLegacyNeeds(z);
    assert NumericColumn().accepts(CHAIN[0]);
    assert forall c :: IsMissing(NumericLegacy(), RowOf(z), c) ==> c in MissingIn(NumericLegacy(), RowOf(z));
    FreshWorkerSucceeds(NumericLegacy(), z);
  }

  lemma NumericLegacyRetypes(z: Zone)
    ensures {"zone", "title"} <= FreshJob(NumericLegacy(), z).Retyped()
  {
    var job := FreshJob(NumericLegacy(), z);
    NumericLegacyNeeds(z);
    LowerPlain("zone");
    LowerPlain("title");
    forall c | c in {"zone", "title"} ensures job.Retypes(c) && c in job.Retyped() {
      assert c in MissingIn(NumericLegacy(), RowOf(z));
      assert Guess(c, z) == Text(z.name);
    }
  }

  lemma NumericLegacyNeeds(z: Zone)
    ensures NoneWrong(NumericLegacy(), RowOf(z))
    ensures MissingIn(NumericLegacy(), RowOf(z)) == {"zone", "title"}
  {
  }

  function NumericColumn(): Column
  {
    Column((v: Value) => v.Whole?, true)
  }

  function NumericLegacy(): Table
  {
    var text := Column((v: Value) => v.Text?, true);
    map["id" := text, "name" := text, "zone" := NumericColumn(), "title" := NumericColumn()]
  }
}
