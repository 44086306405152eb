# Dynamic form wizard — Dafny model

This project models the core of a multi-step form renderer. The renderer is driven by a schema that the server supplies. A form is an ordered list of sections. Each section holds an ordered list of fields. The component behaves as follows:

- It fetches the schema and shows a loading screen until the fetch ends. If the fetch fails, it shows a fixed error message.
- It renders one section at a time. For each field it picks a control and a set of validation rules from the field's type and attributes.
- It moves between sections with Previous and Next. Next advances only after the current section's fields pass validation. The last section offers Submit in place of Next.

Modules, one per part of `src/components/DynamicForm.tsx`:

- `FormSchema` (form_schema.dfy): the `Field`, `FieldOption` and `Section` records the component reads. Their type module is not part of this model, so they are defined from how the component uses them. The schema's `type` and `label` properties are named `fieldType` and `labelText`, because `type` and `label` are Dafny keywords. `fieldType` stays free text, so an unknown type can be represented.
- `FieldRules` (field_rules.dfy): the rule table of `renderField` and the per-field rows of `FormFields`.
- `Decimal` (decimal.dfy): how a template literal prints a length bound inside `Minimum length is n`, together with a parser that reads the number back.
- `SectionNavigator` (section_navigator.dfy): the section index as a pure state machine, and runs of Next/Prev presses.
- `FormController` (form_controller.dfy): the component itself. A class `DynamicForm` holds the state the component keeps (`formData`, `currentSection`, `loading`, `error`), and its methods are the state updates the component makes. `RenderForm` gives what the component shows in each state, and `ValidationTargets` gives the ids a section's validation covers.

Validation is done by the form library (`trigger`). It is a parameter of the model, a function from the requested id list to pass/fail, so the model makes no assumption about how rules are evaluated. Likewise the library's error store is a `map` from field id to message, passed to `RenderRows`.

In these points the model follows the code's behaviour:

- The type names are the code's (`text`, `tel`, `email`, `date`, `textarea`, `dropdown`, `radio`, `checkbox`).
- An unknown type is silently omitted: no control and no rules.
- A radio or checkbox field registers its rules only through its per-option inputs. With a missing or empty option list it gets no rule, even when `required` is set.
- A length bound of 0 yields no rule, just like a missing bound, because `field.minLength && …` is falsy for 0. A negative bound is truthy and does produce a rule.
- Successful loads neither reset `currentSection` nor clear `error` (`FetchSucceeded`).
- An empty form, or an index past the end of the loaded sections, makes the render read a missing section. `RenderForm` models this case as `RenderFault`.

## Model

| member | source | states |
|---|---|---|
| `FieldRules.RenderField` | src/components/DynamicForm.tsx:18-135 | The rule table. Only the eight known types get a control; unknown types get none. Each type gets its own control kind: a text input with the field's type for text, tel and email, a date input, a text area, a select, a radio group and a checkbox group. The required rule is present exactly when `required` holds, with message "This field is required", except for a radio or checkbox field without options: it renders no input, so `register` is never called and no rule is attached. The minLength and maxLength rules are present exactly for text, tel, email and textarea, and only when the bound is present and non-zero. A dropdown lists the blank "Select an option" entry, then one entry per option. Radio and checkbox list one entry per option, with the option's value and label. Only text-like controls carry the field's placeholder; the others carry none. |
| `FieldRules.ChoicesOf` | src/components/DynamicForm.tsx:85-89 | Gives one choice per schema option, in option order, with the option's value and label. |
| `FieldRules.LengthMessagesNameBounds` | src/components/DynamicForm.tsx:27-34 | Each length rule carries the field's own bound. Its message is exactly "Minimum length is " or "Maximum length is " followed by the bound as printed by `IntToString`. Parsing the number back out of the message gives exactly that bound. |
| `FieldRules.RenderRows` | src/components/DynamicForm.tsx:140-152 | Gives one row per field, in order. Each row has the field's label, a required marker exactly when `required` holds, and the field's control. It shows an error message exactly when the error store has an entry for the field id, and that message is the stored one. |
| `Decimal.NatToString` | src/components/DynamicForm.tsx:29 | A bound prints as a non-empty run of decimal digits. It has no leading zero, and 0 prints as "0". |
| `Decimal.IntToString` | src/components/DynamicForm.tsx:29 | The printed bound starts with a minus sign exactly when the bound is negative. |
| `Decimal.ParseIntToString` | src/components/DynamicForm.tsx:29 | Printing a bound and parsing the text gives back the bound. |
| `Decimal.IntToStringInjective` | src/components/DynamicForm.tsx:29-33 | Different bounds give different message texts. |
| `SectionNavigator.NextIndex` | src/components/DynamicForm.tsx:189-194 | Next advances by exactly one when the section validated and is not the last. Otherwise the index is unchanged. It never leaves the range of sections. |
| `SectionNavigator.CapturedNextIndex` | src/components/DynamicForm.tsx:189-194 | Next as written: the guard reads the index captured at render time, and the functional update adds one to the index current when it applies. When nothing changed the index in between, it agrees with `NextIndex`. |
| `SectionNavigator.OverlappingNextsOvershoot` | src/components/DynamicForm.tsx:189-194 | Two validated Next presses handled from the same render of section N-2 leave the index at N, one past the last section. |
| `SectionNavigator.PrevIndex` | src/components/DynamicForm.tsx:196-200 | Prev steps back by one above the first section and does nothing at the first section. It takes no validation input. |
| `SectionNavigator.RunStaysInRange` | src/components/DynamicForm.tsx:189-200 | From any index inside the form, every sequence of Next/Prev presses keeps the index inside `[0, N-1]`, when each press is handled against the current index. That holds when presses do not overlap, and for every press once the guard moves into the functional update. |
| `SectionNavigator.RunBoundedByValidNexts` | src/components/DynamicForm.tsx:189-194 | The index never moves further forward than the number of Next presses whose section validated. |
| `SectionNavigator.ValidNextsAdvance` | src/components/DynamicForm.tsx:189-194 | k validated Next presses move from index i to min(i + k, N - 1). Next is idempotent at the last section. |
| `SectionNavigator.FailedNextsStay` | src/components/DynamicForm.tsx:189-194 | Next presses whose section fails validation never move the index. |
| `SectionNavigator.PrevsRetreat` | src/components/DynamicForm.tsx:196-200 | k Prev presses move from index i to max(i - k, 0). Prev is idempotent at 0. |
| `SectionNavigator.NextThenPrevReturns` | src/components/DynamicForm.tsx:189-200 | Below the last section, a validated Next followed by Prev returns to the starting section. |
| `FormController.ValidationTargets` | src/components/DynamicForm.tsx:182-186 | Validation is requested for the section's field ids, one per field, in field order. |
| `FormController.ValidationTargetsExact` | src/components/DynamicForm.tsx:182-186 | An id is requested exactly when some field of the section has that id. No other id is requested. |
| `FormController.RenderForm` | src/components/DynamicForm.tsx:206-249 | The loading screen is shown exactly while loading. The error screen is shown exactly when loading is over and an error is set, and it shows that error. A section is shown only when neither holds. That section is the current one, with its title, description and fields. Prev is disabled exactly at index 0. Submit replaces Next exactly at the last index. |
| `FormController.ButtonsMatchNavigator` | src/components/DynamicForm.tsx:228-249 | On a section screen, Submit is offered exactly where a validated Next would not move. Prev is disabled exactly where Prev would not move. |
| `FormController.NavigationKeepsSectionShown` | src/components/DynamicForm.tsx:189-222 | After a non-empty form loads, every sequence of Next/Prev presses from section 0 leaves a section on screen. The render never reads a missing section. |
| `FormController.OverlappingNextsReachMissingSection` | src/components/DynamicForm.tsx:189-218 | With the handler as written, two overlapping validated Next presses from section N-2 make the render read a section that does not exist. |
| `FormController.FailureHidesSections` | src/components/DynamicForm.tsx:206-212 | After the load failure, the fixed error screen is shown and no section is, however many sections exist. |
| `FormController.DynamicForm.constructor` | src/components/DynamicForm.tsx:159-164 | A mounted component starts with no sections, index 0, loading on and no error, so it shows the loading screen. |
| `FormController.DynamicForm.FetchSucceeded` | src/components/DynamicForm.tsx:169-171 | Stores the fetched sections and clears loading. The index and the error are left as they were. With no error and the index in range, a section is shown. |
| `FormController.DynamicForm.FetchFailed` | src/components/DynamicForm.tsx:172-176 | Sets the error to "Failed to load form. Please try again." and clears loading. The sections and the index are left as they were. The error screen is shown. |
| `FormController.DynamicForm.ValidateSection` | src/components/DynamicForm.tsx:182-187 | Returns the library's verdict on exactly the given section's field ids. |
| `FormController.DynamicForm.HandleNext` | src/components/DynamicForm.tsx:189-194 | Sets the index to `NextIndex` of the old index, applied to the verdict on the current section's ids. The index stays within the sections. Nothing else changes. |
| `FormController.DynamicForm.HandlePrev` | src/components/DynamicForm.tsx:196-200 | Sets the index to `PrevIndex` of the old index, without asking for validation. The index stays within the sections. Nothing else changes. |

## Findings

| source | as written | input that shows it | evidently intended | confidence | as-written member | corrected member |
|---|---|---|---|---|---|---|
| src/components/DynamicForm.tsx:190-192 | `handleNext` awaits validation, then tests the `currentSection` captured at render time. It increments with the functional update `prev => prev + 1`. | Two sections, index 0, both valid. Next is clicked twice before the component re-renders. Both handlers pass the guard with index 0, and both increments apply, so the index becomes 2 and the render reads `formData[2].title`. | Next never moves past the last section. Testing the bound on `prev` inside the functional update achieves this. | medium; not executed; depends on the two clicks landing before the re-render | `SectionNavigator.CapturedNextIndex`, `SectionNavigator.OverlappingNextsOvershoot` | `SectionNavigator.NextIndex`, `SectionNavigator.RunStaysInRange` |

The corrected update tests and increments the same index. React applies queued functional updates one after another to the latest index, so overlapping presses then behave as a sequence of `NextIndex` steps, which `RunStaysInRange` keeps in range. `DynamicForm.HandleNext` uses this behaviour; it coincides with the code as written whenever presses do not overlap.

## Left out

- Rule evaluation and the form library's value store (`register`, `trigger`, `handleSubmit`, the `errors` object). They belong to react-hook-form, which is not part of this model. Validation verdicts and error messages are therefore inputs. Field values are not state of this component, so they are not modelled. Next and Prev modify only `currentSection`.
- The Submit action: `handleSubmit` with the `onSubmit` sink, which only logs the values. The model covers only where the Submit control appears. Submit makes no explicit `validateSection` call for earlier sections. Whether the library re-validates fields on submit is left open.
- HandleNext: each press is handled to completion before the next one starts, so the guard and the update read the same index. Overlapping presses, where the as-written guard reads a stale index, appear only in `CapturedNextIndex` and the Findings table. With them, the index can pass the last section, and the render then reads a missing section.
- The `getForm` network call, the `async`/`await` sequencing, the `console.error` logging of a failed fetch, and the stale response that a `rollNumber` change can race against. Only the two state transitions a fetch ends in are modelled (`FetchSucceeded`, `FetchFailed`). The refetch on a `rollNumber` change is not modelled as its own operation.
- JSX markup, CSS classes, `data-testid` wiring, the option keys, and how checkbox/radio values bind to the library.
- `Decimal.IntToString` prints integer bounds only. It does not model how JavaScript prints fractional bounds, or bounds of magnitude 10^21 and above, which use exponent notation.
- The login gate in `src/app/page.tsx`, which only stores the roll number and mounts the form.
