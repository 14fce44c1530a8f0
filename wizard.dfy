/**
 * The wizard controller (`PhotographyInquiryForm`) with the page abstracted
 * away: the step counter, the selected event, the captured `formData`, the
 * wedding timeline rows, which top-level view is shown and the rendered summary.
 * The controls of the active `.form-step` are passed in as an array (null when
 * no step is active); validation flags its elements in place.
 */
module Wizard {
  import opened Wrappers
  import opened EventTypes
  import opened Controls
  import opened Capture
  import opened Timeline
  import opened InquirySummaries

  /** Steps 0 (event details), 1 (services and contact) and 2 (review); confirmation is
      a view reached by submitting, not a step. */
  const LastStep: int := 2

  /** The top-level section that is shown: welcome, the wizard form, or the confirmation. */
  datatype View = Welcome | Form | Confirmation

  /** The classes a step indicator can carry. */
  datatype Indicator = Pending | Active | Completed

  /** `updateProgress`: the four indicators for counter `step`. Exactly the indicators
      before the step are completed and exactly the one at the step is active. */
  function Indicators(step: int): (r: seq<Indicator>)
    ensures |r| == 4
    ensures forall i :: 0 <= i < 4 ==> (r[i] == Completed <==> i < step)
    ensures forall i :: 0 <= i < 4 ==> (r[i] == Active <==> i == step)
  {
    seq(4, i => if i < step then Completed else if i == step then Active else Pending)
  }

  class InquiryForm {
    var currentStep: int
    var selectedEvent: Option<string>
    var formData: FormData
    /** The rows of `#weddingTimeline`, absent while no wedding template is mounted. */
    var timeline: Option<seq<TimelineRow>>
    var view: View
    /** The content of the summary container, once one has been generated. */
    var summary: Option<Summary>

    /** The counter stays within the three steps, `services` has no duplicates, and a
        mounted timeline starts with the template's own row, followed only by rows
        that carry a Remove button. */
    ghost predicate Valid()
      reads this
    {
      && 0 <= currentStep <= LastStep
      && NoDuplicates(ServiceList(formData))
      && (timeline.Some? ==> Shaped(timeline.value))
    }

    constructor ()
      ensures Valid()
      ensures currentStep == 0 && selectedEvent == None && formData == EmptyFormData
      ensures timeline == None && view == Welcome && summary == None
    {
      currentStep := 0;
      selectedEvent := None;
      formData := EmptyFormData;
      timeline := None;
      view := Welcome;
      summary := None;
    }

    /** `resetForm`: back to the welcome view with a cleared state, from any state. The
        mounted step-0 template (and so the timeline) and the summary container are left as they are. */
    method ResetForm()
      modifies this
      ensures currentStep == 0 && selectedEvent == None && formData == EmptyFormData && view == Welcome
      ensures timeline == old(timeline) && summary == old(summary)
      ensures old(Valid()) ==> Valid()
    {
      currentStep := 0;
      selectedEvent := None;
      formData := EmptyFormData;
      view := Welcome;
    }

    /** `selectEventType` with `generateEventForm`: records the label, mounts the template
        registered under it (if any), and shows the form. The counter is not reset. */
    method SelectEventType(eventLabel: string)
      requires Valid()
      modifies this
      ensures Valid()
      ensures selectedEvent == Some(eventLabel) && view == Form
      ensures timeline == match FromLabel(eventLabel)
        case Some(e) => if HasTimeline(e) then Some([OriginalRow]) else None
        case None => old(timeline)
      ensures currentStep == old(currentStep) && formData == old(formData) && summary == old(summary)
    {
      selectedEvent := Some(eventLabel);
      var template := FromLabel(eventLabel);
      if template.Some? {
        timeline := if HasTimeline(template.value) then Some([OriginalRow]) else None;
      }
      view := Form;
    }

    /** `validateCurrentStep`: every required control is visited, its error flag cleared
        and set again if its trimmed value is empty; the answer is whether none failed.
        With no active step the answer is yes. */
    method ValidateCurrentStep(active: array?<Control>) returns (ok: bool)
      modifies active
      ensures active == null ==> ok
      ensures active != null ==> ok == StepValid(old(active[..])) && active[..] == FlagErrors(old(active[..]))
    {
      if active == null {
        return true;
      }
      ghost var original := active[..];
      ok := true;
      var i := 0;
      while i < active.Length
        invariant 0 <= i <= active.Length
        invariant ok == forall j :: 0 <= j < i ==> Passes(original[j])
        invariant forall j :: 0 <= j < i ==> active[j] == Flag(original[j])
        invariant forall j :: i <= j < active.Length ==> active[j] == original[j]
      {
        var field := active[i];
        if field.required {
          field := field.(error := false);
          if Trim(field.value) == "" {
            field := field.(error := true);
            ok := false;
          }
          active[i] := field;
        }
        assert active[i] == Flag(original[i]);
        i := i + 1;
      }
      assert active[..] == FlagErrors(original);
    }

    /** One iteration of `saveCurrentStepData`'s loop: `services` is created when absent,
        then a checked box pushes its value unless present and an unchecked box splices it
        out if present; any other control overwrites its key. */
    method CaptureControl(c: Control)
      requires Valid()
      modifies this
      ensures Valid()
      ensures formData == ApplyControl(old(formData), c)
      ensures currentStep == old(currentStep) && selectedEvent == old(selectedEvent)
      ensures timeline == old(timeline) && view == old(view) && summary == old(summary)
    {
      ApplyControlKeepsNoDuplicates(formData, c);
      if c.kind == Checkbox {
        if formData.services.None? {
          formData := formData.(services := Some([]));
        }
        var services := formData.services.value;
        ghost var listed := ServiceList(old(formData));
        assert services == listed;
        if c.checked && c.value !in services {
          services := services + [c.value];
        } else if !c.checked {
          var index := IndexOf(services, c.value);
          if index > -1 {
            services := services[..index] + services[index + 1..];
          }
          assert services == RemoveFirst(listed, c.value);
        }
        formData := formData.(services := Some(services));
      } else {
        formData := formData.(fields := formData.fields[c.name := c.value]);
      }
    }

    /** `saveCurrentStepData`: captures the active step's controls in document order;
        a no-op when no step is active. */
    method SaveCurrentStepData(active: array?<Control>)
      requires Valid()
      modifies this
      ensures Valid()
      ensures formData == if active == null then old(formData) else SaveAll(old(formData), active[..])
      ensures currentStep == old(currentStep) && selectedEvent == old(selectedEvent)
      ensures timeline == old(timeline) && view == old(view) && summary == old(summary)
    {
      if active == null {
        return;
      }
      var i := 0;
      while i < active.Length
        invariant 0 <= i <= active.Length
        invariant Valid()
        invariant formData == SaveAll(old(formData), active[..i])
        invariant currentStep == old(currentStep) && selectedEvent == old(selectedEvent)
        invariant timeline == old(timeline) && view == old(view) && summary == old(summary)
      {
        CaptureControl(active[i]);
        assert active[..i + 1][..i] == active[..i];
        i := i + 1;
      }
      assert active[..active.Length] == active[..];
    }

    /** `showNextStep`: the counter moves one step forward. */
    method ShowNextStep()
      requires Valid() && currentStep < LastStep
      modifies this
      ensures Valid() && currentStep == old(currentStep) + 1
      ensures selectedEvent == old(selectedEvent) && formData == old(formData)
      ensures timeline == old(timeline) && view == old(view) && summary == old(summary)
    {
      currentStep := currentStep + 1;
    }

    /** `showPrevStep`: the counter moves one step back. */
    method ShowPrevStep()
      requires Valid() && currentStep > 0
      modifies this
      ensures Valid() && currentStep == old(currentStep) - 1
      ensures selectedEvent == old(selectedEvent) && formData == old(formData)
      ensures timeline == old(timeline) && view == old(view) && summary == old(summary)
    {
      currentStep := currentStep - 1;
    }

    /** `nextStep`: validates the active step; if it passes, saves it and, below the last
        step, advances by exactly one. A failing step changes neither the counter nor the
        data; a passing last step is saved but not advanced. */
    method NextStep(active: array?<Control>)
      requires Valid()
      modifies this, active
      ensures Valid()
      ensures active != null ==> active[..] == FlagErrors(old(active[..]))
      ensures var ok := active == null || StepValid(old(active[..]));
        && formData == (if ok && active != null then SaveAll(old(formData), old(active[..])) else old(formData))
        && currentStep == (if ok && old(currentStep) < LastStep then old(currentStep) + 1 else old(currentStep))
      ensures selectedEvent == old(selectedEvent) && timeline == old(timeline)
      ensures view == old(view) && summary == old(summary)
    {
      var ok := ValidateCurrentStep(active);
      if ok {
        if active != null {
          SaveAllIgnoresErrors(formData, old(active[..]));
        }
        SaveCurrentStepData(active);
        if currentStep < LastStep {
          ShowNextStep();
        }
      }
    }

    /** `prevStep`: one step back without validating or saving; a no-op at step 0. */
    method PrevStep()
      requires Valid()
      modifies this
      ensures Valid()
      ensures currentStep == if old(currentStep) > 0 then old(currentStep) - 1 else old(currentStep)
      ensures selectedEvent == old(selectedEvent) && formData == old(formData)
      ensures timeline == old(timeline) && view == old(view) && summary == old(summary)
    {
      if currentStep > 0 {
        ShowPrevStep();
      }
    }

    /** `submitForm` with `showConfirmation`: validates the active step; if it passes,
        saves it, switches to the confirmation view and renders the summary of the saved
        data. The step counter is not consulted and not changed. */
    method SubmitForm(active: array?<Control>)
      requires Valid()
      modifies this, active
      ensures Valid()
      ensures active != null ==> active[..] == FlagErrors(old(active[..]))
      ensures var ok := active == null || StepValid(old(active[..]));
        && formData == (if ok && active != null then SaveAll(old(formData), old(active[..])) else old(formData))
        && view == (if ok then Confirmation else old(view))
        && summary == (if ok then Some(InquirySummary(selectedEvent, formData)) else old(summary))
      ensures currentStep == old(currentStep) && selectedEvent == old(selectedEvent)
      ensures timeline == old(timeline)
    {
      var ok := ValidateCurrentStep(active);
      if ok {
        if active != null {
          SaveAllIgnoresErrors(formData, old(active[..]));
        }
        SaveCurrentStepData(active);
        view := Confirmation;
        summary := Some(InquirySummary(selectedEvent, formData));
      }
    }

    /** `addTimelineItem`: with a timeline mounted, appends one row numbered by the row
        count before the append plus one; otherwise nothing happens. */
    method AddTimelineItem()
      requires Valid()
      modifies this
      ensures Valid()
      ensures timeline == if old(timeline).Some? then Some(AddRow(old(timeline).value)) else None
      ensures old(timeline).Some? ==> |timeline.value| == |old(timeline).value| + 1
      ensures currentStep == old(currentStep) && selectedEvent == old(selectedEvent) && formData == old(formData)
      ensures view == old(view) && summary == old(summary)
    {
      if timeline.None? {
        return;
      }
      var rows := timeline.value;
      ShapedPreserved(rows, 0);
      var itemCount := |rows|;
      timeline := Some(rows + [TimelineRow(itemCount + 1, true)]);
    }

    /** `removeTimelineItem(item)`: the row at index `k` is removed only while the
        timeline has more than one row, so removal never leaves it empty. Only added
        rows carry a Remove button, so a click always passes that guard. */
    method RemoveTimelineItem(k: nat)
      requires Valid()
      requires timeline.Some? ==> k < |timeline.value| && timeline.value[k].removable
      modifies this
      ensures Valid()
      ensures timeline == if old(timeline).Some? then Some(RemoveRow(old(timeline).value, k)) else None
      ensures timeline.Some? ==> |timeline.value| >= 1
      ensures old(timeline).Some? ==>
        |timeline.value| == |old(timeline).value| - 1 && timeline.value == old(timeline).value[..k] + old(timeline).value[k + 1..]
      ensures currentStep == old(currentStep) && selectedEvent == old(selectedEvent) && formData == old(formData)
      ensures view == old(view) && summary == old(summary)
    {
      if timeline.Some? {
        ShapedPreserved(timeline.value, k);
      }
      if timeline.Some? && |timeline.value| > 1 {
        var rows := timeline.value;
        timeline := Some(rows[..k] + rows[k + 1..]);
      }
    }
  }
}
