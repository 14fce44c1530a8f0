/**
 * `saveCurrentStepData`: how the controls of the active step are captured
 * into `formData`. Checkbox values form the duplicate-free `services` list;
 * every other control overwrites `formData[name]`.
 */
module Capture {
  import opened Wrappers
  import opened Controls

  /** The controller's `formData` object: text values by control name, and the
      `services` list, absent until the first checkbox is captured. */
  datatype FormData = FormData(fields: map<string, string>, services: Option<seq<string>>)

  /** `formData = {}` */
  const EmptyFormData := FormData(map[], None)

  predicate NoDuplicates(s: seq<string>)
  {
    forall i, j :: 0 <= i < j < |s| ==> s[i] != s[j]
  }

  /** The services list, reading an absent list as empty. */
  function ServiceList(fd: FormData): seq<string>
  {
    if fd.services.Some? then fd.services.value else []
  }

  /** `s.indexOf(v)`: the first index holding `v`, or -1. */
  function IndexOf(s: seq<string>, v: string): (r: int)
    ensures -1 <= r < |s|
    ensures r == -1 <==> v !in s
    ensures r >= 0 ==> s[r] == v && forall j :: 0 <= j < r ==> s[j] != v
  {
    if s == [] then -1
    else if s[0] == v then 0
    else
      var k := IndexOf(s[1..], v);
      if k == -1 then -1 else k + 1
  }

  /** `index = s.indexOf(v); if (index > -1) s.splice(index, 1)`. On a duplicate-free
      list this removes `v` and keeps every other element. */
  function RemoveFirst(s: seq<string>, v: string): (r: seq<string>)
    ensures v !in s ==> r == s
    ensures v in s ==> |r| == |s| - 1
    ensures NoDuplicates(s) ==> NoDuplicates(r) && v !in r && forall x :: x in r <==> x in s && x != v
  {
    var i := IndexOf(s, v);
    if i > -1 then
      assert s == s[..i] + [v] + s[i + 1..];
      s[..i] + s[i + 1..]
    else s
  }

  /** Capture of one control (one iteration of the `forEach`). A checkbox first
      creates the list if absent; a checked box appends its value unless present,
      an unchecked one removes it if present. Any other control overwrites its key. */
  function ApplyControl(fd: FormData, c: Control): FormData
  {
    if c.kind == Checkbox then
      var s := ServiceList(fd);
      var s' :=
        if c.checked && c.value !in s then s + [c.value]
        else if !c.checked then RemoveFirst(s, c.value)
        else s;
      fd.(services := Some(s'))
    else
      fd.(fields := fd.fields[c.name := c.value])
  }

  /** Capture of a whole step: the controls in document order. */
  function SaveAll(fd: FormData, cs: seq<Control>): FormData
  {
    if cs == [] then fd
    else ApplyControl(SaveAll(fd, cs[..|cs| - 1]), cs[|cs| - 1])
  }

  /** The value of the last non-checkbox control named `k`, if any. */
  function LastText(cs: seq<Control>, k: string): Option<string>
  {
    if cs == [] then None
    else if cs[|cs| - 1].kind != Checkbox && cs[|cs| - 1].name == k then Some(cs[|cs| - 1].value)
    else LastText(cs[..|cs| - 1], k)
  }

  /** The checked state of the last checkbox whose value is `v`, if any. */
  function LastCheck(cs: seq<Control>, v: string): Option<bool>
  {
    if cs == [] then None
    else if cs[|cs| - 1].kind == Checkbox && cs[|cs| - 1].value == v then Some(cs[|cs| - 1].checked)
    else LastCheck(cs[..|cs| - 1], v)
  }

  /** Capturing one control keeps `services` duplicate-free. */
  lemma ApplyControlKeepsNoDuplicates(fd: FormData, c: Control)
    requires NoDuplicates(ServiceList(fd))
    ensures NoDuplicates(ServiceList(ApplyControl(fd, c)))
  {
  }

  /** Capturing the same control twice is the same as capturing it once. */
  lemma ApplyControlIdempotent(fd: FormData, c: Control)
    requires NoDuplicates(ServiceList(fd))
    ensures ApplyControl(ApplyControl(fd, c), c) == ApplyControl(fd, c)
  {
  }

  /** Capturing a step keeps `services` duplicate-free. */
  lemma {:induction false} SaveAllKeepsNoDuplicates(fd: FormData, cs: seq<Control>)
    requires NoDuplicates(ServiceList(fd))
    ensures NoDuplicates(ServiceList(SaveAll(fd, cs)))
    decreases |cs|
  {
    if cs != [] {
      SaveAllKeepsNoDuplicates(fd, cs[..|cs| - 1]);
      ApplyControlKeepsNoDuplicates(SaveAll(fd, cs[..|cs| - 1]), cs[|cs| - 1]);
    }
  }

  /** A key named by a non-checkbox control of the step ends up holding the value
      of the last such control; every other key is unchanged (present or absent). */
  lemma {:induction false} SaveAllFields(fd: FormData, cs: seq<Control>, k: string)
    ensures var r := SaveAll(fd, cs).fields;
      match LastText(cs, k)
      case Some(v) => k in r && r[k] == v
      case None => (k in r <==> k in fd.fields) && (k in r ==> r[k] == fd.fields[k])
    decreases |cs|
  {
    if cs != [] {
      SaveAllFields(fd, cs[..|cs| - 1], k);
    }
  }

  /** A service is listed after the step exactly when the last checkbox of the step
      carrying its value is checked; a value no checkbox of the step carries keeps
      its membership. */
  lemma {:induction false} SaveAllServices(fd: FormData, cs: seq<Control>, v: string)
    requires NoDuplicates(ServiceList(fd))
    ensures v in ServiceList(SaveAll(fd, cs)) <==>
      match LastCheck(cs, v)
      case Some(b) => b
      case None => v in ServiceList(fd)
    decreases |cs|
  {
    if cs != [] {
      var prefix := cs[..|cs| - 1];
      SaveAllServices(fd, prefix, v);
      SaveAllKeepsNoDuplicates(fd, prefix);
    }
  }

  /** The `services` list exists after the step exactly when it existed before or
      the step holds a checkbox (checked or not). */
  lemma {:induction false} SaveAllCreatesServices(fd: FormData, cs: seq<Control>)
    ensures SaveAll(fd, cs).services.Some? <==>
      fd.services.Some? || exists i :: 0 <= i < |cs| && cs[i].kind == Checkbox
    decreases |cs|
  {
    if cs != [] {
      var prefix := cs[..|cs| - 1];
      SaveAllCreatesServices(fd, prefix);
      assert forall i :: 0 <= i < |prefix| ==> prefix[i] == cs[i];
    }
  }

  /** Saving a step a second time changes no text value and no service membership. */
  lemma SaveAllIdempotent(fd: FormData, cs: seq<Control>)
    requires NoDuplicates(ServiceList(fd))
    ensures SaveAll(SaveAll(fd, cs), cs).fields == SaveAll(fd, cs).fields
    ensures forall v :: v in ServiceList(SaveAll(SaveAll(fd, cs), cs)) <==> v in ServiceList(SaveAll(fd, cs))
  {
    var once := SaveAll(fd, cs);
    var twice := SaveAll(once, cs);
    forall k ensures (k in twice.fields <==> k in once.fields) && (k in twice.fields ==> twice.fields[k] == once.fields[k]) {
      SaveAllFields(fd, cs, k);
      SaveAllFields(once, cs, k);
    }
    SaveAllKeepsNoDuplicates(fd, cs);
    forall v ensures v in ServiceList(twice) <==> v in ServiceList(once) {
      SaveAllServices(fd, cs, v);
      SaveAllServices(once, cs, v);
    }
  }

  /** Capture does not read the `error` class: a step captures the same whether or
      not its controls were flagged by validation. */
  lemma {:induction false} SaveAllIgnoresErrors(fd: FormData, cs: seq<Control>)
    ensures SaveAll(fd, FlagErrors(cs)) == SaveAll(fd, cs)
    decreases |cs|
  {
    if cs != [] {
      var prefix := cs[..|cs| - 1];
      SaveAllIgnoresErrors(fd, prefix);
      assert FlagErrors(cs)[..|cs| - 1] == FlagErrors(prefix);
    }
  }
}
