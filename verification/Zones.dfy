/**
  What a zone is when it is read back (delivery.py): validation on the way in, the
  reader of rows on the way out, and the self-repairing save in between.
*/
module Zones {
  import opened Wrappers
  import opened ZoneRepair

  // -------------------------------------------------------------------------- names

  predicate IsBlank(c: char)
  {
    c in [' ', '\t', '\n', '\r']
  }

  function StripFront(s: string): string
  {
    if s != "" && IsBlank(s[0]) then StripFront(s[1..]) else s
  }

  function StripBack(s: string): string
  {
    if s != "" && IsBlank(s[|s| - 1]) then StripBack(s[..|s| - 1]) else s
  }

  /** Every run of blanks becomes one space. */
  function Squeeze(s: string): string
  {
    if s == "" then ""
    else if !IsBlank(s[0]) then [s[0]] + Squeeze(s[1..])
    else if |s| > 1 && IsBlank(s[1]) then Squeeze(s[1..])
    else " " + Squeeze(s[1..])
  }

  /** A name without blanks around it and single spaces inside, cut to a length. */
  function Clean(s: string, limit: nat): string
  {
    var tidy := Squeeze(StripBack(StripFront(s)));
    if |tidy| <= limit then tidy else tidy[..limit]
  }

  const NAME_MAX: nat := 80
  const NOTE_MAX: nat := 400

  /** Blanks stand alone and are spaces. */
  predicate Single(s: string)
  {
    forall i :: 0 <= i < |s| && IsBlank(s[i]) ==> s[i] == ' ' && (i + 1 < |s| ==> !IsBlank(s[i + 1]))
  }

  lemma {:induction false} StripFrontIs(s: string)
    ensures StripFront(s) != "" ==> !IsBlank(StripFront(s)[0])
    ensures (s != "" ==> !IsBlank(s[0])) ==> StripFront(s) == s
  {
    if s != "" && IsBlank(s[0]) {
      StripFrontIs(s[1..]);
    }
  }

  lemma {:induction false} StripBackIs(s: string)
    ensures StripBack(s) <= s
    ensures StripBack(s) != "" ==> !IsBlank(StripBack(s)[|StripBack(s)| - 1])
    ensures (s != "" ==> !IsBlank(s[|s| - 1])) <==> StripBack(s) == s
  {
    if s != "" && IsBlank(s[|s| - 1]) {
      StripBackIs(s[..|s| - 1]);
    }
  }

  lemma {:induction false} SqueezeIs(s: string)
    ensures Single(Squeeze(s))
    ensures |Squeeze(s)| <= |s| && (Squeeze(s) == "" <==> s == "")
    ensures s != "" ==> (IsBlank(Squeeze(s)[0]) <==> IsBlank(s[0]))
    ensures Single(s) ==> Squeeze(s) == s
  {
    if s != "" {
      var rest := s[1..];
      SqueezeIs(rest);
      assert Single(s) ==> Single(rest) by {
        assert forall i :: 0 <= i < |rest| ==> rest[i] == s[i + 1];
      }
      if IsBlank(s[0]) && rest != "" && IsBlank(rest[0]) {
        assert !Single(s);
      }
    }
  }

  lemma CleanedIs(s: string, limit: nat)
    ensures var name := Clean(s, limit); Single(name) && |name| <= limit && (name != "" ==> !IsBlank(name[0]))
  {
    var bare := StripBack(StripFront(s));
    StripFrontIs(s);
    StripBackIs(StripFront(s));
    SqueezeIs(bare);
    assert bare != "" ==> bare[0] == StripFront(s)[0];
  }

  lemma CleanOfSingle(name: string, limit: nat)
    requires Single(name) && |name| <= limit && (name != "" ==> !IsBlank(name[0]))
    ensures Clean(name, limit) == name <==> name == "" || !IsBlank(name[|name| - 1])
  {
    StripFrontIs(name);
    StripBackIs(name);
    SqueezeIs(StripBack(name));
    SqueezeIs(name);
  }

  /**
    Cleaning an already clean name changes nothing, unless the cut left a space at
    its end: then the second time takes it away.
  */
  lemma CleanAgainIff(s: string, limit: nat)
    ensures var name := Clean(s, limit); Clean(name, limit) == name <==> name == "" || !IsBlank(name[|name| - 1])
  {
    CleanedIs(s, limit);
    CleanOfSingle(Clean(s, limit), limit);
  }

  /** The counterexample to cleaning alike on the way in and out: a space at the cut is gone when the name is read. */
  lemma CutNameReadsShorter(front: string)
    requires |front| == NAME_MAX - 1 && forall i :: 0 <= i < |front| ==> !IsBlank(front[i])
    ensures Clean(front + " b", NAME_MAX) == front + " "
    ensures Clean(front + " ", NAME_MAX) == front
  {
    LongNameIsCut(front);
    SpaceIsStripped(front);
  }

  lemma LongNameIsCut(front: string)
    requires |front| == NAME_MAX - 1 && forall i :: 0 <= i < |front| ==> !IsBlank(front[i])
    ensures Clean(front + " b", NAME_MAX) == front + " "
  {
    var long := front + " b";
    assert long[0] == front[0] && long[|long| - 1] == 'b';
    StripFrontIs(long);
    StripBackIs(long);
    SqueezeIs(long);
    assert long[..NAME_MAX] == front + " ";
  }

  lemma SpaceIsStripped(front: string)
    requires |front| == NAME_MAX - 1 && forall i :: 0 <= i < |front| ==> !IsBlank(front[i])
    ensures Clean(front + " ", NAME_MAX) == front
  {
    var cut := front + " ";
    assert cut[0] == front[0];
    StripFrontIs(cut);
    assert cut[..|front|] == front;
    StripBackIs(front);
    assert StripBack(cut) == front;
    SqueezeIs(front);
  }

  // ------------------------------------------------------------------- the way in

  /** What the editor sends; a fare that is not a whole number is None. */
  datatype Payload = Payload(name: string, currency: string, kind: string, fareMin: Option<int>, fareMax: Option<int>,
                             active: bool, sortOrder: int, note: string)

  datatype Fault = NoName | UnknownCurrency | UnknownKind | FareNotWhole | NegativeFare | NoMaximum

  const KINDS: set<string> := {"delivery", "pickup", "quote"}
  const CURRENCIES: set<string> := {"CFA", "NGN"}

  function Upper(s: string): string
  {
    if s == "" then ""
    else [if 'a' <= s[0] <= 'z' then (s[0] as int - 32) as char else s[0]] + Upper(s[1..])
  }

  function Or(s: string, default: string): string
  {
    if s == "" then default else s
  }

  function Validate(id: string, p: Payload): Result<Zone, Fault>
  {
    Checked(id, Clean(p.name, NAME_MAX), Upper(Or(p.currency, "CFA")), Lower(Or(p.kind, "delivery")), p)
  }

  /** The checks, once name, currency and kind are normalised. */
  function Checked(id: string, name: string, currency: string, kind: string, p: Payload): Result<Zone, Fault>
  {
    if name == "" then Err(NoName)
    else if currency !in CURRENCIES then Err(UnknownCurrency)
    else if kind !in KINDS then Err(UnknownKind)
    else if p.fareMin.None? || p.fareMax.None? then Err(FareNotWhole)
    else
      var low, high := p.fareMin.value, p.fareMax.value;
      if low < 0 || high < 0 then Err(NegativeFare)
      else if kind == "delivery" && high <= 0 then Err(NoMaximum)
      else Ok(Zone(id, name, currency, kind, if high < low then high else low, if high < low then low else high,
                   p.active, p.sortOrder, Clean(p.note, NOTE_MAX)))
  }

  /** A zone as validation leaves it. */
  predicate Proper(z: Zone)
  {
    z.kind in KINDS && z.currency in CURRENCIES && 0 <= z.fareMin <= z.fareMax && z.name != ""
  }

  // -------------------------------------------------------------------- the way out

  /** The columns of the editor, by the kind of value they hold. */
  const TEXTS: set<string> := {"id", "name", "currency", "kind", "note"}
  const WHOLES: set<string> := {"fare_min", "fare_max", "sort_order"}

  predicate OwnKind(c: string, v: Value)
  {
    (c in TEXTS ==> v.Text?) && (c in WHOLES ==> v.Whole?) && (c == "active" ==> v.Flag?)
  }

  /** Every column of the editor that the row has holds a value of its kind. */
  predicate OwnKinds(row: Row)
  {
    forall c :: c in row ==> OwnKind(c, row[c])
  }

  function TextAt(row: Row, c: string, default: string): string
    requires OwnKinds(row) && c in TEXTS
  {
    if c in row then Or(row[c].s, default) else default
  }

  function WholeAt(row: Row, c: string): int
    requires OwnKinds(row) && c in WHOLES
  {
    if c in row then row[c].n else 0
  }

  /** One row as the storefront sees it; a range the wrong way round is turned. */
  function ReadZone(row: Row): Zone
    requires OwnKinds(row)
  {
    var kind, currency := TextAt(row, "kind", "delivery"), Upper(TextAt(row, "currency", "CFA"));
    var low, high := WholeAt(row, "fare_min"), WholeAt(row, "fare_max");
    Zone(TextAt(row, "id", ""), Clean(TextAt(row, "name", ""), NAME_MAX),
         if currency in CURRENCIES then currency else "CFA", if kind in KINDS then kind else "delivery",
         if high < low then high else low, if high < low then low else high,
         if "active" in row then row["active"].b else true, WholeAt(row, "sort_order"), TextAt(row, "note", ""))
  }

  /** Whatever a row holds, what is read of it can be shown: a kind and a currency there are, and a range in order. */
  lemma ReadCanBeShown(row: Row)
    requires OwnKinds(row)
    ensures var z := ReadZone(row);
            && z.kind in KINDS && z.currency in CURRENCIES && z.fareMin <= z.fareMax && Single(z.name)
            && {z.fareMin, z.fareMax} == {WholeAt(row, "fare_min"), WholeAt(row, "fare_max")}
            && (TextAt(row, "kind", "") !in KINDS ==> z.kind == "delivery")
            && (Upper(TextAt(row, "currency", "")) !in CURRENCIES ==> z.currency == "CFA")
  {
    CleanedIs(TextAt(row, "name", ""), NAME_MAX);
    ProperReads(Zone("", "x", "CFA", "delivery", 0, 0, true, 0, ""));
  }

  // ------------------------------------------------------------------ there and back

  /** An upsert writes the columns sent over the row there is. */
  function Stored(before: Row, sent: Row): Row
  {
    before + sent
  }

  /** A row that says of each column of the table what the editor said, and nothing of the others. */
  ghost predicate Says(row: Row, table: Table, z: Zone)
  {
    forall c :: c in RowOf(z) ==> (c in row <==> c in table) && (c in row ==> row[c] == RowOf(z)[c])
  }

  /** No column that the worker leaves out is one of the table's. */
  predicate DropsNone(table: Table, shape: Shape)
  {
    forall c :: c in shape.drop ==> c !in table
  }

  function JobOf(table: Table, shape: Shape, z: Zone): Job
  {
    Job(table, Start(shape, RowOf(z), GuessFor(z)), GuessFor(z), shape)
  }

  lemma LandedSays(table: Table, shape: Shape, z: Zone, before: Row, after: Shape, sent: Row)
    requires Landed(JobOf(table, shape, z), after, sent) && DropsNone(table, shape) && before.Keys <= table.Keys
    ensures Says(Stored(before, sent), table, z)
  {
    var job := JobOf(table, shape, z);
    forall c | c in RowOf(z)
      ensures c in Stored(before, sent) <==> c in table
      ensures c in Stored(before, sent) ==> Stored(before, sent)[c] == RowOf(z)[c]
    {
      StartAt(shape, RowOf(z), GuessFor(z), c);
      assert c in sent <==> (c in job.first && c in job.table) || job.Demands(c);
    }
  }

  lemma SaidKinds(row: Row, table: Table, z: Zone)
    requires Says(row, table, z)
    ensures OwnKinds(row)
  {
    forall c | c in row ensures OwnKind(c, row[c]) {
      if c in TEXTS || c in WHOLES || c == "active" {
        assert c in RowOf(z);
      }
    }
  }

  lemma ProperReads(z: Zone)
    requires Proper(z)
    ensures Upper(z.currency) == z.currency && Upper("CFA") == "CFA"
  {
    assert Upper("CFA") == "CFA" by { assert "CFA"[1..] == "FA" && "FA"[1..] == "A"; }
    assert Upper("NGN") == "NGN" by { assert "NGN"[1..] == "GN" && "GN"[1..] == "N"; }
  }

  /**
    A saved zone reads back as it was: every field whose column the table has, the
    fares if it has both. The name is cleaned once more.
  */
  lemma SaidReadsBack(row: Row, table: Table, z: Zone)
    requires Says(row, table, z) && Proper(z) && "id" in table && "name" in table
    ensures OwnKinds(row)
    ensures var back := ReadZone(row);
            && back.id == z.id && back.name == Clean(z.name, NAME_MAX)
            && back.currency == (if "currency" in table then z.currency else "CFA")
            && back.kind == (if "kind" in table then z.kind else "delivery")
            && back.active == ("active" in table ==> z.active)
            && back.sortOrder == (if "sort_order" in table then z.sortOrder else 0)
            && back.note == (if "note" in table then z.note else "")
            && back.fareMin == (if "fare_min" in table && "fare_max" in table then z.fareMin else 0)
            && back.fareMax == (if "fare_max" in table then z.fareMax else if "fare_min" in table then z.fareMin else 0)
  {
    SaidKinds(row, table, z);
    NamesRead(row, table, z);
    CurrencyRead(row, table, z);
    KindRead(row, table, z);
    FaresRead(row, table, z);
    WholeReads(row, table, z, "sort_order", z.sortOrder);
    assert "active" in RowOf(z) && RowOf(z)["active"] == Flag(z.active);
  }

  lemma NamesRead(row: Row, table: Table, z: Zone)
    requires Says(row, table, z) && OwnKinds(row) && "id" in table && "name" in table
    ensures var back := ReadZone(row);
            && back.id == z.id && back.name == Clean(z.name, NAME_MAX)
            && back.note == (if "note" in table then z.note else "")
  {
    TextReads(row, table, z, "id", z.id);
    TextReads(row, table, z, "name", z.name);
    TextReads(row, table, z, "note", z.note);
  }

  lemma CurrencyRead(row: Row, table: Table, z: Zone)
    requires Says(row, table, z) && OwnKinds(row) && Proper(z)
    ensures ReadZone(row).currency == if "currency" in table then z.currency else "CFA"
  {
    ProperReads(z);
    TextReads(row, table, z, "currency", z.currency);
  }

  lemma KindRead(row: Row, table: Table, z: Zone)
    requires Says(row, table, z) && OwnKinds(row) && Proper(z)
    ensures ReadZone(row).kind == if "kind" in table then z.kind else "delivery"
  {
    TextReads(row, table, z, "kind", z.kind);
  }

  lemma FaresRead(row: Row, table: Table, z: Zone)
    requires Says(row, table, z) && OwnKinds(row) && Proper(z)
    ensures var back := ReadZone(row);
            && back.fareMin == (if "fare_min" in table && "fare_max" in table then z.fareMin else 0)
            && back.fareMax == (if "fare_max" in table then z.fareMax else if "fare_min" in table then z.fareMin else 0)
  {
    WholeReads(row, table, z, "fare_min", z.fareMin);
    WholeReads(row, table, z, "fare_max", z.fareMax);
  }

  lemma TextReads(row: Row, table: Table, z: Zone, c: string, s: string)
    requires Says(row, table, z) && OwnKinds(row) && c in TEXTS && c in RowOf(z) && RowOf(z)[c] == Text(s)
    ensures forall default :: TextAt(row, c, default) == if c in table then Or(s, default) else default
  {
  }

  lemma WholeReads(row: Row, table: Table, z: Zone, c: string, n: int)
    requires Says(row, table, z) && OwnKinds(row) && c in WHOLES && c in RowOf(z) && RowOf(z)[c] == Whole(n)
    ensures WholeAt(row, c) == if c in table then n else 0
  {
  }

  /** The table has all the columns of the editor. */
  predicate HasAll(table: Table)
  {
    && "id" in table && "name" in table && "currency" in table && "kind" in table && "note" in table
    && "fare_min" in table && "fare_max" in table && "sort_order" in table && "active" in table
  }

  /**
    What validation lets in, and as what: a name that is not blank, a currency and a kind
    there are, whole fares that are not negative, and for a delivery a fare at all.
  */
  lemma ValidatedIff(id: string, p: Payload)
    ensures Validate(id, p).Ok?
        <==> && Clean(p.name, NAME_MAX) != ""
             && Upper(Or(p.currency, "CFA")) in CURRENCIES && Lower(Or(p.kind, "delivery")) in KINDS
             && p.fareMin.Some? && p.fareMax.Some? && p.fareMin.value >= 0 && p.fareMax.value >= 0
             && (Lower(Or(p.kind, "delivery")) == "delivery" ==> p.fareMax.value > 0)
    ensures Validate(id, p).Ok? ==>
              var z := Validate(id, p).value;
              && z.fareMin <= z.fareMax && {z.fareMin, z.fareMax} == {p.fareMin.value, p.fareMax.value}
              && z.active == p.active && z.sortOrder == p.sortOrder && z.note == Clean(p.note, NOTE_MAX)
              && z.currency == Upper(Or(p.currency, "CFA")) && z.kind == Lower(Or(p.kind, "delivery"))
  {
  }

  /** A currency or a kind left out is CFA or delivery, and neither depends on capitals. */
  lemma DefaultsAndCapitals(id: string, p: Payload)
    ensures Validate(id, p.(currency := "")) == Validate(id, p.(currency := "CFA"))
    ensures Validate(id, p.(kind := "")) == Validate(id, p.(kind := "delivery"))
    ensures Validate(id, p.(currency := Lower(p.currency))) == Validate(id, p)
    ensures Validate(id, p.(kind := Upper(p.kind))) == Validate(id, p)
  {
    SameButSpelling(id, p.(currency := ""), p.(currency := "CFA"));
    SameButSpelling(id, p.(kind := ""), p.(kind := "delivery"));
    UpperOfLower(p.currency);
    SameButSpelling(id, p, p.(currency := Lower(p.currency)));
    LowerOfUpper(p.kind);
    SameButSpelling(id, p, p.(kind := Upper(p.kind)));
  }

  lemma SameButSpelling(id: string, p: Payload, q: Payload)
    requires p.(currency := "", kind := "") == q.(currency := "", kind := "")
    requires Upper(Or(p.currency, "CFA")) == Upper(Or(q.currency, "CFA"))
    requires Lower(Or(p.kind, "delivery")) == Lower(Or(q.kind, "delivery"))
    ensures Validate(id, p) == Validate(id, q)
  {
  }

  lemma {:induction false} UpperOfLower(s: string)
    ensures Upper(Lower(s)) == Upper(s) && (Lower(s) == "" <==> s == "")
  {
    if s != "" {
      UpperOfLower(s[1..]);
      assert Lower(s)[1..] == Lower(s[1..]);
    }
  }

  lemma {:induction false} LowerOfUpper(s: string)
    ensures Lower(Upper(s)) == Lower(s) && (Upper(s) == "" <==> s == "")
  {
    if s != "" {
      LowerOfUpper(s[1..]);
      assert Upper(s)[1..] == Upper(s[1..]);
    }
  }

  lemma ValidatedIsProper(id: string, p: Payload)
    requires Validate(id, p).Ok?
    ensures Proper(Validate(id, p).value) && Validate(id, p).value.id == id
  {
  }

  /** On a table that has all nine columns a proper zone reads back unchanged but for its name, cleaned once more. */
  lemma ProperReadsBack(row: Row, table: Table, z: Zone)
    requires Says(row, table, z) && Proper(z) && HasAll(table)
    ensures OwnKinds(row) && ReadZone(row) == z.(name := Clean(z.name, NAME_MAX))
  {
    SaidReadsBack(row, table, z);
  }

  /**
    The editor's round trip: on a table that has all nine columns what validation let
    in reads back unchanged, whatever was repaired on the way, exactly if its name was
    not cut at a space.
  */
  lemma SavedReadsBack(
      table: Table, shape: Shape, id: string, p: Payload, z: Zone, before: Row, after: Shape, sent: Row)
    requires Validate(id, p) == Ok(z) && HasAll(table) && DropsNone(table, shape) && before.Keys <= table.Keys
    requires Landed(JobOf(table, shape, z), after, sent)
    ensures OwnKinds(Stored(before, sent))
    ensures ReadZone(Stored(before, sent)) == z.(name := Clean(z.name, NAME_MAX))
    ensures z.name != "" && (ReadZone(Stored(before, sent)) == z <==> !IsBlank(z.name[|z.name| - 1]))
  {
    ValidatedIsProper(id, p);
    LandedSays(table, shape, z, before, after, sent);
    ProperReadsBack(Stored(before, sent), table, z);
    CleanAgainIff(p.name, NAME_MAX);
    ValidatedName(id, p);
  }

  lemma ValidatedName(id: string, p: Payload)
    requires Validate(id, p).Ok?
    ensures Validate(id, p).value.name == Clean(p.name, NAME_MAX)
  {
  }

  datatype SaveError = Invalid(fault: Fault) | NotSaved(failure: Failure)

  /** Save a zone and answer with what the table then holds; an unreadable row is answered with what was sent. */
  method Save(writer: ZoneWriter, table: Table, before: Row, id: string, p: Payload)
    returns (r: Result<Zone, SaveError>)
    modifies writer
    ensures Validate(id, p).Err? ==> r == Err(Invalid(Validate(id, p).error)) && writer.shape == old(writer.shape)
    ensures Validate(id, p).Ok? && Repairable(JobOf(table, old(writer.shape), Validate(id, p).value)) ==> r.Ok?
    ensures Validate(id, p).Ok? && Repairable(JobOf(table, old(writer.shape), Validate(id, p).value))
            && HasAll(table) && DropsNone(table, old(writer.shape)) && before.Keys <= table.Keys ==>
              r.value == Validate(id, p).value.(name := Clean(Validate(id, p).value.name, NAME_MAX))
  {
    var clean := Validate(id, p);
    if clean.Err? {
      return Err(Invalid(clean.error));
    }
    ghost var shape := writer.shape;
    var sent, _ := writer.SaveZone(table, clean.value);
    if sent.Err? {
      return Err(NotSaved(sent.error));
    }
    if Repairable(JobOf(table, shape, clean.value)) && HasAll(table) && DropsNone(table, shape)
       && before.Keys <= table.Keys {
      SavedReadsBack(table, shape, id, p, clean.value, before, writer.shape, sent.value);
    }
    var row := Stored(before, sent.value);
    SentKinds(clean.value);
    r := Ok(ReadZone(if OwnKinds(row) then row else RowOf(clean.value)));
  }

  lemma SentKinds(z: Zone)
    ensures OwnKinds(RowOf(z))
  {
    forall c | c in RowOf(z) ensures OwnKind(c, RowOf(z)[c]) {
    }
  }

  // ------------------------------------------------------------ guesses for old columns

  lemma LetterPresent(part: string, whole: string, i: nat, k: nat)
    requires i <= |whole| && part <= whole[i..] && k < |part|
    ensures part[k] in whole
  {
    assert whole[i..][k] == whole[i + k];
  }

  lemma LetterAbsent(part: string, whole: string, k: nat)
    requires k < |part| && part[k] !in whole
    ensures !Within(part, whole)
  {
    if i :| 0 <= i <= |whole| && part <= whole[i..] {
      LetterPresent(part, whole, i, k);
      assert false;
    }
  }

  lemma AnyWithinAt(parts: seq<string>, p: nat, whole: string)
    requires p < |parts| && parts[p] <= whole
    ensures AnyWithin(parts, whole)
  {
    assert whole[0..] == whole;
    assert Within(parts[p], whole);
  }

  predicate Small(c: string)
  {
    forall i :: 0 <= i < |c| ==> !('A' <= c[i] <= 'Z')
  }

  /** None of the name-like columns has one of these letters. */
  predicate NotNameLike(c: string)
  {
    'f' in c || 'u' in c || 'k' in c || 'r' in c || 'v' in c || c == "note"
  }

  lemma NotAName(c: string)
    requires NotNameLike(c)
    ensures c !in NAME_LIKE
  {
    forall i | 0 <= i < |NAME_LIKE| ensures c != NAME_LIKE[i] {
      LettersOfNames(i);
    }
  }

  lemma LettersOfNames(i: nat)
    requires i < |NAME_LIKE|
    ensures var name := NAME_LIKE[i];
            'f' !in name && 'u' !in name && 'k' !in name && 'r' !in name && 'v' !in name && name != "note"
  {
    assert "note"[0] != "zone"[0] && "note"[1] != "name"[1];
  }

  lemma NoFare(c: string)
    requires 'm' !in c
    ensures !Within("min", c) && !Within("max", c)
  {
    LetterAbsent("min", c, 0);
    LetterAbsent("max", c, 0);
  }

  lemma NoKind(c: string)
    requires 'k' !in c && 'y' !in c && 'm' !in c
    ensures !AnyWithin(KIND_WORDS, c)
  {
    LetterAbsent("kind", c, 0);
    LetterAbsent("type", c, 1);
    LetterAbsent("mode", c, 0);
  }

  lemma NoSort(c: string)
    requires 'r' !in c && 'p' !in c
    ensures !AnyWithin(SORT_WORDS, c)
  {
    LetterAbsent("sort", c, 2);
    LetterAbsent("rank", c, 0);
    LetterAbsent("position", c, 0);
    LetterAbsent("order", c, 1);
  }

  lemma NoNote(c: string)
    requires 'n' !in c && 'm' !in c && 'o' !in c && 'd' !in c
    ensures !AnyWithin(NOTE_WORDS, c)
  {
    LetterAbsent("note", c, 0);
    LetterAbsent("comment", c, 1);
    LetterAbsent("description", c, 0);
    LetterAbsent("remark", c, 2);
  }

  lemma GuessCurrency(z: Zone, c: string)
    requires Small(c) && NotNameLike(c) && 'm' !in c && "currency" <= c
    ensures Guess(c, z) == Text(z.currency)
  {
    LowerPlain(c);
    NotAName(c);
    NoFare(c);
    assert c[0..] == c;
  }

  lemma GuessKind(z: Zone, c: string)
    requires Small(c) && NotNameLike(c) && 'm' !in c && 'c' !in c && "kind" <= c
    ensures Guess(c, z) == Text(z.kind)
  {
    LowerPlain(c);
    NotAName(c);
    NoFare(c);
    LetterAbsent("currency", c, 0);
    AnyWithinAt(KIND_WORDS, 0, c);
  }

  lemma GuessSort(z: Zone, c: string)
    requires Small(c) && NotNameLike(c) && 'm' !in c && 'c' !in c && 'k' !in c && 'y' !in c && "sort" <= c
    ensures Guess(c, z) == Whole(z.sortOrder)
  {
    LowerPlain(c);
    NotAName(c);
    NoFare(c);
    LetterAbsent("currency", c, 0);
    NoKind(c);
    AnyWithinAt(SORT_WORDS, 0, c);
  }

  lemma GuessNote(z: Zone, c: string)
    requires Small(c) && NotNameLike(c) && 'm' !in c && 'c' !in c && 'k' !in c && 'y' !in c
    requires 'r' !in c && 'p' !in c && "note" <= c
    ensures Guess(c, z) == Text(z.note)
  {
    LowerPlain(c);
    NotAName(c);
    NoFare(c);
    LetterAbsent("currency", c, 0);
    NoKind(c);
    NoSort(c);
    AnyWithinAt(NOTE_WORDS, 0, c);
  }

  lemma GuessActive(z: Zone, c: string)
    requires Small(c) && NotNameLike(c) && 'm' !in c && 'u' !in c && 'k' !in c && 'y' !in c
    requires 'r' !in c && 'p' !in c && 'n' !in c && 'o' !in c && 'd' !in c && "active" <= c
    ensures Guess(c, z) == Flag(z.active)
  {
    LowerPlain(c);
    NotAName(c);
    NoFare(c);
    LetterAbsent("currency", c, 1);
    NoKind(c);
    NoSort(c);
    NoNote(c);
    AnyWithinAt(FLAG_WORDS, 0, c);
  }

  lemma GuessMin(z: Zone, c: string)
    requires Small(c) && NotNameLike(c) && 3 <= |c| && "min" <= c[|c| - 3..]
    ensures Guess(c, z) == Whole(z.fareMin)
  {
    LowerPlain(c);
    NotAName(c);
  }

  lemma GuessMax(z: Zone, c: string)
    requires Small(c) && NotNameLike(c) && 'i' !in c && 3 <= |c| && "max" <= c[|c| - 3..]
    ensures Guess(c, z) == Whole(z.fareMax)
  {
    LowerPlain(c);
    NotAName(c);
    LetterAbsent("min", c, 1);
  }

  lemma NameGuessed(z: Zone, c: string, k: nat)
    requires Small(c) && k < |NAME_LIKE| && NAME_LIKE[k] == c
    ensures Guess(c, z) == Text(z.name)
  {
    LowerPlain(c);
  }

  /**
    Were a column of the editor demanded as if it were an old one, its best guess is what
    the editor says of it; the id alone is never guessed, as it is always sent.
  */
  lemma GuessAgrees(z: Zone)
    ensures Guess("name", z) == Guess("zone_name", z) == Text(z.name)
    ensures Guess("fare_min", z) == Whole(z.fareMin) && Guess("fare_max", z) == Whole(z.fareMax)
    ensures Guess("currency", z) == Text(z.currency) && Guess("kind", z) == Text(z.kind)
    ensures Guess("sort_order", z) == Whole(z.sortOrder) && Guess("note", z) == Text(z.note)
    ensures Guess("active", z) == Flag(z.active)
  {
    NameGuessed(z, "name", 1);
    NameGuessed(z, "zone_name", 0);
    MinGuessed(z);
    MaxGuessed(z);
    CurrencyGuessed(z);
    KindGuessed(z);
    SortGuessed(z);
    NoteGuessed(z);
    ActiveGuessed(z);
  }

  lemma MinGuessed(z: Zone)
    ensures Guess("fare_min", z) == Whole(z.fareMin)
  {
    var c := "fare_min";
    assert c[0] == 'f';
    GuessMin(z, c);
  }

  lemma MaxGuessed(z: Zone)
    ensures Guess("fare_max", z) == Whole(z.fareMax)
  {
    var c := "fare_max";
    assert c[0] == 'f';
    GuessMax(z, c);
  }

  lemma CurrencyGuessed(z: Zone)
    ensures Guess("currency", z) == Text(z.currency)
  {
    var c := "currency";
    assert c[1] == 'u';
    GuessCurrency(z, c);
  }

  lemma KindGuessed(z: Zone)
    ensures Guess("kind", z) == Text(z.kind)
  {
    var c := "kind";
    assert c[0] == 'k';
    GuessKind(z, c);
  }

  lemma SortGuessed(z: Zone)
    ensures Guess("sort_order", z) == Whole(z.sortOrder)
  {
    var c := "sort_order";
    assert c[2] == 'r';
    assert "sort" <= c;
    GuessSort(z, c);
  }

  lemma NoteGuessed(z: Zone)
    ensures Guess("note", z) == Text(z.note)
  {
    var c := "note";
    GuessNote(z, c);
  }

  lemma ActiveGuessed(z: Zone)
    ensures Guess("active", z) == Flag(z.active)
  {
    var c := "active";
    assert c[4] == 'v';
    GuessActive(z, c);
  }
}
