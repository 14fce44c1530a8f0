/**
 * The controls of one wizard step (inputs, selects, textareas), JavaScript's
 * `String.prototype.trim`, and the required-field rule of `validateCurrentStep`.
 */
module Controls {

  /** Checkboxes are captured as a set of services; every other control type as a text value. */
  datatype Kind = Checkbox | Other

  /** One form control: its `name`, type, current `value`, `checked` state,
      `required` attribute and whether it carries the `error` class. */
  datatype Control = Control(name: string, kind: Kind, value: string, checked: bool, required: bool, error: bool)

  /** The characters `trim` removes: ECMAScript WhiteSpace and LineTerminator code points. */
  predicate IsSpace(c: char)
  {
    || c == '\t' || c == '\n' || c == '\U{000B}' || c == '\U{000C}' || c == '\r' || c == ' '
    || c == '\U{00A0}' || c == '\U{1680}' || ('\U{2000}' <= c <= '\U{200A}')
    || c == '\U{2028}' || c == '\U{2029}' || c == '\U{202F}' || c == '\U{205F}'
    || c == '\U{3000}' || c == '\U{FEFF}'
  }

  /** Every character of `s` is white space (the empty string included). */
  predicate Blank(s: string)
  {
    forall i :: 0 <= i < |s| ==> IsSpace(s[i])
  }

  /** Drops leading white space. */
  function TrimStart(s: string): (r: string)
    ensures r != [] ==> !IsSpace(r[0])
    ensures r == [] <==> Blank(s)
  {
    if s != [] && IsSpace(s[0]) then TrimStart(s[1..]) else s
  }

  /** Drops trailing white space. */
  function TrimEnd(s: string): (r: string)
    ensures r != [] ==> !IsSpace(r[|r| - 1])
    ensures r == [] <==> Blank(s)
  {
    if s != [] && IsSpace(s[|s| - 1]) then TrimEnd(s[..|s| - 1]) else s
  }

  /** `s.trim()`: empty exactly when `s` is white space only. */
  function Trim(s: string): (r: string)
    ensures r == [] <==> Blank(s)
  {
    var t := TrimStart(s);
    var r := TrimEnd(t);
    assert t != [] ==> !Blank(t) by {
      if t != [] { assert !IsSpace(t[0]); }
    }
    r
  }

  /** What `TrimStart` drops is white space and what it keeps is a suffix. */
  lemma {:induction false} TrimStartSuffix(s: string)
    ensures |TrimStart(s)| <= |s| && TrimStart(s) == s[|s| - |TrimStart(s)|..]
    ensures Blank(s[..|s| - |TrimStart(s)|])
    decreases |s|
  {
    if s != [] && IsSpace(s[0]) {
      TrimStartSuffix(s[1..]);
      var k := |s| - |TrimStart(s)|;
      assert s[1..][..k - 1] == s[1..k];
    }
  }

  /** What `TrimEnd` drops is white space and what it keeps is a prefix. */
  lemma {:induction false} TrimEndPrefix(s: string)
    ensures |TrimEnd(s)| <= |s| && TrimEnd(s) == s[..|TrimEnd(s)|]
    ensures Blank(s[|TrimEnd(s)|..])
    decreases |s|
  {
    if s != [] && IsSpace(s[|s| - 1]) {
      TrimEndPrefix(s[..|s| - 1]);
      var k := |TrimEnd(s)|;
      assert s[..|s| - 1][k..] == s[k..|s| - 1];
    }
  }

  /** `Trim(s)` is `s` with white space removed at both ends only: a contiguous part of
      `s`, with white space on either side of it, that neither starts nor ends with white space. */
  lemma TrimIsSlice(s: string)
    ensures exists i {:trigger s[i..]} ::
              (0 <= i <= |s| - |Trim(s)| && Trim(s) == s[i..][..|Trim(s)|]
               && Blank(s[..i]) && Blank(s[i + |Trim(s)|..]))
    ensures Trim(s) != [] ==> !IsSpace(Trim(s)[0]) && !IsSpace(Trim(s)[|Trim(s)| - 1])
  {
    var t := TrimStart(s);
    TrimStartSuffix(s);
    TrimEndPrefix(t);
    var i := |s| - |t|;
    var r := Trim(s);
    assert r == TrimEnd(t);
    assert r == s[i..i + |r|];
    assert t[|r|..] == s[i + |r|..];
    assert s[i..] == t;
    assert r == s[i..][..|r|];
  }

  /** The test one required field must pass: `field.value.trim()` is non-empty. */
  predicate Passes(c: Control)
  {
    !c.required || Trim(c.value) != []
  }

  /** The verdict of `validateCurrentStep` on a step holding `cs`. */
  predicate StepValid(cs: seq<Control>)
  {
    forall i :: 0 <= i < |cs| ==> Passes(cs[i])
  }

  /** One control after validation: a required control's error class is cleared,
      then set again if its trimmed value is empty; other controls are not touched. */
  function Flag(c: Control): (r: Control)
    ensures r.(error := c.error) == c
    ensures r.error == if c.required then !Passes(c) else c.error
  {
    if c.required then c.(error := Trim(c.value) == []) else c
  }

  /** The step's controls after validation. No early exit: every control is visited. */
  function FlagErrors(cs: seq<Control>): (r: seq<Control>)
    ensures |r| == |cs|
    ensures forall i :: 0 <= i < |cs| ==> r[i] == Flag(cs[i])
  {
    seq(|cs|, i requires 0 <= i < |cs| => Flag(cs[i]))
  }

  /** After validation, the flagged required controls are exactly the failing ones,
      and the step is valid exactly when no required control is flagged. */
  lemma FlaggedAreFailing(cs: seq<Control>)
    ensures forall i :: 0 <= i < |cs| && cs[i].required ==>
      (FlagErrors(cs)[i].error <==> Blank(cs[i].value))
    ensures StepValid(cs) <==> forall i :: 0 <= i < |cs| ==> !(FlagErrors(cs)[i].required && FlagErrors(cs)[i].error)
  {
  }

  /** Validation is idempotent: flagging a flagged step changes nothing more. */
  lemma FlagErrorsIdempotent(cs: seq<Control>)
    ensures FlagErrors(FlagErrors(cs)) == FlagErrors(cs)
    ensures StepValid(FlagErrors(cs)) == StepValid(cs)
  {
  }
}
