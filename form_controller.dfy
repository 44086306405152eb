/**
 * The form component: its load lifecycle (loading, then loaded sections or a
 * fixed error), what it renders in each state, which field ids a section's
 * validation covers, and the Next/Prev handlers over the section index.
 *
 * Validation itself is done by the form library and is not part of this
 * model: its verdict is the `trigger` parameter, a function from the list of
 * field ids asked for to whether they all passed.
 */
module FormController {
  import opened FormSchema
  import SectionNavigator

  const LoadFailedMessage: string := "Failed to load form. Please try again."

  /** The field ids whose validation is requested for a section, in field order. */
  function ValidationTargets(section: Section): (ids: seq<string>)
    ensures |ids| == |section.fields|
    ensures forall k :: 0 <= k < |ids| ==> ids[k] == section.fields[k].fieldId
    decreases |section.fields|
  {
    if section.fields == [] then []
    else [section.fields[0].fieldId] + ValidationTargets(section.(fields := section.fields[1..]))
  }

  /** Validation is requested for the ids of the section's fields and for no other id. */
  lemma ValidationTargetsExact(section: Section, id: string)
    ensures id in ValidationTargets(section) <==> exists f :: f in section.fields && f.fieldId == id
  {
  }

  datatype PrimaryButton = SubmitButton | NextButton

  /**
   * What the component shows. RenderFault stands for the render reading
   * `formData[currentSection]` when no such section exists.
   */
  datatype Screen =
    | LoadingScreen
    | ErrorScreen(message: string)
    | SectionScreen(title: string, description: string, fields: seq<Field>, prevDisabled: bool, primary: PrimaryButton)
    | RenderFault

  /** The component's output for a given state. */
  function RenderForm(loading: bool, error: string, formData: seq<Section>, current: nat): (s: Screen)
    ensures s.LoadingScreen? <==> loading
    ensures s.ErrorScreen? <==> !loading && error != ""
    ensures s.ErrorScreen? ==> s.message == error
    ensures s.SectionScreen? <==> !loading && error == "" && current < |formData|
    ensures s.SectionScreen? ==>
      s.title == formData[current].title && s.description == formData[current].description &&
      s.fields == formData[current].fields &&
      (s.prevDisabled <==> current == 0) &&
      (s.primary == SubmitButton <==> current == |formData| - 1)
  {
    if loading then LoadingScreen
    else if error != "" then ErrorScreen(error)
    else if current < |formData| then
      var section := formData[current];
      SectionScreen(section.title, section.description, section.fields,
                    current == 0, if current == |formData| - 1 then SubmitButton else NextButton)
    else RenderFault
  }

  /**
   * On a section screen, Submit is offered exactly where a validated Next would
   * not move, and Prev is disabled exactly where it would not move.
   */
  lemma ButtonsMatchNavigator(loading: bool, error: string, formData: seq<Section>, current: nat)
    requires RenderForm(loading, error, formData, current).SectionScreen?
    ensures var s := RenderForm(loading, error, formData, current);
      (s.primary == SubmitButton <==> SectionNavigator.NextIndex(current, |formData|, true) == current) &&
      (s.prevDisabled <==> SectionNavigator.PrevIndex(current) == current)
  {
  }

  /**
   * Once a non-empty form has loaded without error, every sequence of Next and
   * Prev presses from the first section leaves a section on screen.
   */
  lemma {:induction false} NavigationKeepsSectionShown(formData: seq<Section>, events: seq<SectionNavigator.NavEvent>)
    requires |formData| > 0
    ensures RenderForm(false, "", formData, SectionNavigator.Run(|formData|, 0, events)).SectionScreen?
  {
    SectionNavigator.RunStaysInRange(|formData|, 0, events);
  }

  /**
   * With the handler as written, two overlapping validated Next presses from the
   * next-to-last section make the render read a section that does not exist.
   */
  lemma OverlappingNextsReachMissingSection(formData: seq<Section>)
    requires |formData| >= 2
    ensures var rendered := |formData| - 2;
      var first := SectionNavigator.CapturedNextIndex(rendered, rendered, |formData|, true);
      RenderForm(false, "", formData, SectionNavigator.CapturedNextIndex(rendered, first, |formData|, true)) == RenderFault
  {
  }

  /** A recorded load failure hides every section, however many the form has. */
  lemma FailureHidesSections(formData: seq<Section>, current: nat)
    ensures RenderForm(false, LoadFailedMessage, formData, current) == ErrorScreen(LoadFailedMessage)
  {
  }

  /** The component's state: the loaded sections, the section index and the load status. */
  class DynamicForm {
    /** The prop the schema fetch is keyed by; the fetch itself is outside this model. */
    const rollNumber: string
    var formData: seq<Section>
    var currentSection: nat
    var loading: bool
    var error: string

    /** A freshly mounted component: no sections yet, loading, no error, first section. */
    constructor (rollNumber: string)
      ensures this.rollNumber == rollNumber
      ensures formData == [] && currentSection == 0 && loading && error == ""
      ensures View() == LoadingScreen
    {
      this.rollNumber := rollNumber;
      formData := [];
      currentSection := 0;
      loading := true;
      error := "";
    }

    function View(): Screen
      reads this
    {
      RenderForm(loading, error, formData, currentSection)
    }

    /** The fetch returned these sections: store them and stop loading. */
    method FetchSucceeded(sections: seq<Section>)
      modifies this`formData, this`loading
      ensures formData == sections && !loading
      ensures currentSection == old(currentSection) && error == old(error)
      ensures error == "" && currentSection < |sections| ==> View().SectionScreen?
    {
      formData := sections;
      loading := false;
    }

    /** The fetch failed: record the fixed message and stop loading. */
    method FetchFailed()
      modifies this`error, this`loading
      ensures error == LoadFailedMessage && !loading
      ensures formData == old(formData) && currentSection == old(currentSection)
      ensures View() == ErrorScreen(LoadFailedMessage)
    {
      error := LoadFailedMessage;
      loading := false;
    }

    /** Asks for validation of exactly the given section's field ids. */
    method ValidateSection(sectionIndex: nat, trigger: seq<string> -> bool) returns (result: bool)
      requires sectionIndex < |formData|
      ensures result == trigger(ValidationTargets(formData[sectionIndex]))
    {
      var section := formData[sectionIndex];
      var fields := ValidationTargets(section);
      result := trigger(fields);
    }

    /** Validates the current section and advances when it passed and is not the last. */
    method HandleNext(trigger: seq<string> -> bool)
      requires currentSection < |formData|
      modifies this`currentSection
      ensures currentSection ==
        SectionNavigator.NextIndex(old(currentSection), |formData|, trigger(ValidationTargets(formData[old(currentSection)])))
      ensures currentSection < |formData|
    {
      var isValid := ValidateSection(currentSection, trigger);
      if isValid && currentSection < |formData| - 1 {
        currentSection := currentSection + 1;
      }
    }

    /** Steps back one section unless at the first; nothing is validated. */
    method HandlePrev()
      modifies this`currentSection
      ensures currentSection == SectionNavigator.PrevIndex(old(currentSection))
      ensures old(currentSection) < |formData| ==> currentSection < |formData|
    {
      if currentSection > 0 {
        currentSection := currentSection - 1;
      }
    }
  }
}
