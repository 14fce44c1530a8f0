/**
 * The wedding template's repeatable timeline sub-form: its rows, the
 * sequence number embedded in each row's control names, and the
 * add/remove rules of `addTimelineItem` and `removeTimelineItem`.
 */
module Timeline {
  import opened Controls

  /** One `.timeline-item`: the sequence number in its control names, and whether it
      has a Remove button (rows added by `addTimelineItem` do; the template's own row does not). */
  datatype TimelineRow = TimelineRow(number: nat, removable: bool)

  /** The single row the wedding template starts with (`eventName_1`, no Remove button). */
  const OriginalRow := TimelineRow(1, false)

  /** The decimal digit for `d`. */
  function DigitChar(d: nat): (c: char)
    requires d < 10
    ensures '0' <= c <= '9'
  {
    ('0' as int + d) as char
  }

  /** The value of a decimal digit character. */
  function DigitValue(c: char): nat
  {
    if '0' <= c <= '9' then c as int - '0' as int else 0
  }

  /** Decimal rendering of `n`, as a template literal `${n}` produces it. */
  function NatToString(n: nat): (r: string)
    ensures |r| >= 1
    ensures forall i :: 0 <= i < |r| ==> '0' <= r[i] <= '9'
    decreases n
  {
    if n < 10 then [DigitChar(n)] else NatToString(n / 10) + [DigitChar(n % 10)]
  }

  /** Reads a string of decimal digits back as a number. */
  function ParseDigits(s: string): nat
  {
    if s == [] then 0 else ParseDigits(s[..|s| - 1]) * 10 + DigitValue(s[|s| - 1])
  }

  /** Parsing the rendered number gives the number back. */
  lemma {:induction false} ParseNatToString(n: nat)
    ensures ParseDigits(NatToString(n)) == n
    decreases n
  {
    var s := NatToString(n);
    if n >= 10 {
      ParseNatToString(n / 10);
      assert s[..|s| - 1] == NatToString(n / 10);
    }
  }

  /** Distinct numbers render differently. */
  lemma NatToStringInjective(m: nat, n: nat)
    ensures NatToString(m) == NatToString(n) ==> m == n
  {
    ParseNatToString(m);
    ParseNatToString(n);
  }

  /** The names of a row's three controls. */
  function FieldNames(row: TimelineRow): seq<string>
  {
    var n := NatToString(row.number);
    ["eventName_" + n, "guestCount_" + n, "duration_" + n]
  }

  /** Rows with different numbers have different control names; rows with the same
      number have the same names and so capture into the same `formData` keys. */
  lemma FieldNamesDistinct(a: TimelineRow, b: TimelineRow)
    ensures (FieldNames(a) == FieldNames(b)) <==> a.number == b.number
    ensures a.number != b.number ==> forall i :: 0 <= i < 3 ==> FieldNames(a)[i] != FieldNames(b)[i]
  {
    var na, nb := NatToString(a.number), NatToString(b.number);
    NatToStringInjective(a.number, b.number);
    if a.number != b.number {
      assert na != nb;
      var p1, p2, p3 := "eventName_", "guestCount_", "duration_";
      assert (p1 + na)[|p1|..] == na && (p1 + nb)[|p1|..] == nb;
      assert (p2 + na)[|p2|..] == na && (p2 + nb)[|p2|..] == nb;
      assert (p3 + na)[|p3|..] == na && (p3 + nb)[|p3|..] == nb;
    }
  }

  /** The controls of a freshly added row: an empty, required event name, and empty
      guest count and duration. */
  function RowControls(row: TimelineRow): (r: seq<Control>)
    ensures |r| == 3
    ensures forall i :: 0 <= i < 3 ==> r[i].name == FieldNames(row)[i] && r[i].kind == Other && r[i].value == ""
  {
    var names := FieldNames(row);
    [ Control(names[0], Other, "", false, true, false),
      Control(names[1], Other, "", false, false, false),
      Control(names[2], Other, "", false, false, false) ]
  }

  /** A step holding a freshly added row fails validation until its event name is filled. */
  lemma {:induction false} NewRowBlocksStep(before: seq<Control>, row: TimelineRow, after: seq<Control>)
    ensures !StepValid(before + RowControls(row) + after)
  {
    var cs := before + RowControls(row) + after;
    assert cs[|before|] == RowControls(row)[0];
    assert Trim("") == [];
    assert !Passes(cs[|before|]);
  }

  /** `addTimelineItem`: one new row numbered by the row count before the append, plus one. */
  function AddRow(rows: seq<TimelineRow>): seq<TimelineRow>
  {
    rows + [TimelineRow(|rows| + 1, true)]
  }

  /** `removeTimelineItem(item)`: the row at `k` is dropped only when more than one row exists. */
  function RemoveRow(rows: seq<TimelineRow>, k: nat): seq<TimelineRow>
    requires k < |rows|
  {
    if |rows| > 1 then rows[..k] + rows[k + 1..] else rows
  }

  /** The shape every reachable timeline has: the template's own row first, added rows after it. */
  predicate Shaped(rows: seq<TimelineRow>)
  {
    |rows| >= 1 && rows[0] == OriginalRow && forall i :: 1 <= i < |rows| ==> rows[i].removable
  }

  /** Adding keeps the shape and raises the count by exactly one, the new row carrying
      number count + 1; removing through a row's Remove button keeps the shape, always
      passes the more-than-one-row guard, and lowers the count by exactly one. */
  lemma ShapedPreserved(rows: seq<TimelineRow>, k: nat)
    requires Shaped(rows)
    ensures Shaped(AddRow(rows)) && |AddRow(rows)| == |rows| + 1
    ensures AddRow(rows)[|rows|].number == |rows| + 1
    ensures k < |rows| && rows[k].removable ==>
      |rows| > 1 && Shaped(RemoveRow(rows, k)) && |RemoveRow(rows, k)| == |rows| - 1
  {
  }

  /** Removal never takes the timeline below one row, whichever row is named. */
  lemma RemoveKeepsOneRow(rows: seq<TimelineRow>, k: nat)
    requires k < |rows|
    ensures |RemoveRow(rows, k)| >= 1
    ensures |RemoveRow(rows, k)| == if |rows| > 1 then |rows| - 1 else 1
  {
  }

  /** Numbers are not checked for reuse: starting from the template's row, adding two
      rows, removing the middle one and adding again yields two rows numbered 3, whose
      controls share their names. */
  lemma NumberReusedAfterRemoval()
    ensures var rows := AddRow(RemoveRow(AddRow(AddRow([OriginalRow])), 1));
      |rows| == 3 && rows[1].number == rows[2].number == 3
      && FieldNames(rows[1]) == FieldNames(rows[2])
  {
  }
}
