# Story Spark: template compiler and generation orchestration

This project models the non-rendering logic of Story Spark's `App.tsx`. Story Spark turns a prompt
template plus user-supplied variables into a generation prompt. It then splits the generated story
into a storyboard of scenes, and each scene can get a generated image. The project has four parts:

- **Placeholder extractor** (`Markers`). It finds matches of `{{\s*(\w+)\s*}}` and returns the
  distinct captured names in order of first occurrence. `\s` and `\w` have the JavaScript meaning,
  defined in `Text`.
- **Template compiler** (`Compiler`). For each key of the variables record, every match of
  `{{\s*key\s*}}` is replaced by the key's value, key after key. The preamble with the story topic
  is then put in front. The component state of the generator controls (the variables record and
  the topic) is the class `Compiler.GeneratorControls`. Worked examples are in `CompilerExamples`.
- **Template library** (`Library`). It holds the templates, the selection, the edit session with
  its drafts, and the single optimisation token. Create and edit check that the drafts are not
  blank after trimming. Delete also clears the selection and the edit session. The state is the
  class `Library.TemplateLibrary`.
- **Scene image state machine and processing gate** (`Workspace`). It holds the story, the
  storyboard, the generation flags and the processing message. The state is the class
  `Workspace.Workspace`.

Every asynchronous handler is split at its `await` into two methods:

- a *start* method, for everything before the request;
- a *settle* method, which takes the request's outcome (`Succeeded(value)` or `Failed`).

Interleaved requests are different orders of these calls. A settle reads the current state, not
the state captured at the start. For example, an image settle for position k patches whatever
scene is at position k when it runs, and patches nothing if the storyboard has become shorter.

In these places the code does something other than what its purpose suggests, and the model follows the code:

- A marker whose variable is missing from the record is left in the text verbatim. It is not
  replaced by `""`. Markers only disappear because the record initially binds every placeholder
  to `""`. See `CompilerExamples.UnboundMarkerKept` and
  `CompilerExamples.InitialHeroCompilesEmpty`.
- A failed image request clears loading but keeps any earlier `imageUrl`. It does not go back to
  "no image".
- The handlers do not check `isProcessing`, `optimizingTemplateId` or a scene's loading flag
  themselves. Only the disabled buttons gate them. The handlers are modelled as written, and the
  buttons are the separate `Click…` methods.
- JavaScript truthiness is kept where the code relies on it. An edit id `""` counts as "not
  editing", so saving creates a new template. An optimisation token `""` leaves the buttons
  enabled. An image url `""` shows the empty frame.

## Model

| member | source | states |
|---|---|---|
| `Text.TrimStart` | App.tsx:26 | the result is a suffix of s, everything removed is white space, and it does not start with white space |
| `Text.TrimEnd` | App.tsx:26 | the result is a prefix of s, everything removed is white space, and it does not end with white space |
| `Text.Trim` | App.tsx:26 | `s.trim()` is a slice of s, starting where the leading white space ends, and neither end of it is white space |
| `Text.TrimRemovesSpace` | App.tsx:26 | everything `trim()` removes, before and after the slice it keeps, is white space |
| `Text.Blank` | App.tsx:26 | `!s.trim()` holds exactly when every character of s is JavaScript white space |
| `Markers.MarkerAt` | App.tsx:215 | a match captures a non-empty run of word characters, starts with `{{` and spans at least five characters; its exact shape is stated by the next two rows |
| `Markers.MarkerAtSound` | App.tsx:215 | every match spans exactly `{{`, white space, the captured name, white space and `}}` |
| `Markers.MarkerAtComplete` | App.tsx:215 | `{{`, white space, a word-character name, white space and `}}` match whatever follows, capturing that name over exactly that length |
| `Markers.MarkerNames` | App.tsx:216 | every name produced by the left-to-right scan is a non-empty run of word characters |
| `Markers.ListedNameMatches` | App.tsx:216 | every name of the scan is captured by a match starting at some position of the text |
| `Markers.MatchNameListed` | App.tsx:216 | a match starting at any position is found by the scan: resuming after a match skips no match, since none can begin inside another |
| `Markers.Distinct` | App.tsx:216 | collapsing through a Set keeps exactly the names of the input, each once |
| `Markers.FirstIndex` | App.tsx:216 | the position found holds the name and no earlier position does |
| `Markers.Placeholders` | App.tsx:215-216 | the placeholders are exactly the captured names, each a word-character name, with no repetition |
| `Markers.DistinctKeepsFirstOccurrenceOrder` | App.tsx:216 | the Set keeps names in the order of their first occurrence |
| `Markers.PlaceholdersInFirstOccurrenceOrder` | App.tsx:215-216 | placeholders are listed in the order in which their first occurrence comes in the scan's list of captured names |
| `Markers.PlaceholdersAreMatchNames` | App.tsx:215-216 | a name is a placeholder exactly when a match of the pattern starting at some position of the template captures it |
| `Markers.PlaceholdersEmptyIffNoMarker` | App.tsx:215-216 | a template yields no placeholder if and only if the pattern matches nowhere in it |
| `Markers.BraceFreeHasNoMarker` | App.tsx:215 | text without braces holds no match |
| `Markers.CanonicalMarker` | App.tsx:215 | `{{name}}` matches with exactly that name and length |
| `Markers.NamesOfThreeMarkers` | App.tsx:215-216 | markers separated by brace-free text are captured once per occurrence, repeats included |
| `Markers.MarkerAtPrefix` | App.tsx:215 | a match depends only on the characters it spans |
| `Markers.RepeatedNamesCollapse` | App.tsx:215-216 | `"{{a}} and {{b}} and {{a}}"` yields `[a, b]` |
| `Compiler.KeyMatch` | App.tsx:237 | a match of `{{\s*key\s*}}` at the head of the text covers at least the key and its four braces, and stays inside the text |
| `Compiler.KeyMatchIsMarker` | App.tsx:237 | for a word-character key, `{{\s*key\s*}}` matches exactly where the placeholder pattern matches with that name, with the same length |
| `Compiler.ReplaceCopiesBraceFree` | App.tsx:237 | text without braces is copied unchanged by a replacement |
| `Compiler.ReplaceKeepsOtherMarker` | App.tsx:236-238 | with `Compiler.ReplaceAll` (`replace` with the `/g` pattern): a marker naming another variable is copied verbatim |
| `Compiler.ReplaceRewritesMarker` | App.tsx:237 | with `Compiler.ReplaceAll`: a marker of the key, whatever white space it holds, is replaced by the value and the scan resumes after it |
| `Compiler.ReplaceWithoutMatchIsIdentity` | App.tsx:237 | where the key's pattern matches nowhere, the text is returned unchanged |
| `Compiler.ReplaceCopiesRun` | App.tsx:237 | with `Compiler.ReplaceAll`: a run of positions where the key's pattern does not match is copied unchanged and the replacement continues after it |
| `Compiler.Instruction` | App.tsx:239 | the prompt is the opening, the topic, the fixed instruction line, then the filled template, and each part can be cut back out |
| `Compiler.InitialBindings` | App.tsx:220 | the initial record binds each placeholder, in order, to `""` |
| `Compiler.Bind` | App.tsx:230 | an existing key keeps its position and takes the new value; a new key is appended |
| `Compiler.BindKeys` | App.tsx:230 | binding keeps keys distinct and adds exactly the bound key |
| `Compiler.ReplaceDischargesKey` | App.tsx:236-238 | replacing a key by a brace-free value leaves every brace inside a marker of one of the remaining names |
| `Compiler.FillDischargesKeys` | App.tsx:235-238 | with `Compiler.FillAll` (the loop over the record's keys): after the loop, the braces left belong only to markers of names that were not bound |
| `Compiler.NoMarkerLeft` | App.tsx:235-238 | if every brace of the template belongs to a bound variable's marker and no value holds a brace, the compiled body holds no marker |
| `Compiler.InitialBindingsLeaveNoMarker` | App.tsx:216-238 | the same with the initial record, every placeholder bound to `""` |
| `Compiler.GeneratorControls.constructor` | App.tsx:212-213 | the record and topic start empty |
| `Compiler.GeneratorControls.SelectionChanged` | App.tsx:218-227 | a selected template resets the record to its placeholders bound to `""` and no selection resets it to empty; the topic becomes `""` either way; the effect also runs when the selected template is revised in place, by a saved edit or a settled optimisation (App.tsx:29-33, 375) |
| `Compiler.GeneratorControls.SetVariable` | App.tsx:229-231 | the record becomes `{...prev, [key]: value}` and keeps distinct name keys |
| `Compiler.GeneratorControls.SetTopic` | App.tsx:256 | the topic is the typed text |
| `Compiler.GeneratorControls.GenerateClick` | App.tsx:233-241 | without a selected template no prompt is produced; otherwise the prompt is the preamble with the topic followed by the template with every binding replaced in record order |
| `CompilerExamples.RobotInTheDesert` | App.tsx:233-239 | `"Write about {{topic}} in {{setting}}."` with topic `a robot` and setting `a desert` fills to `"Write about a robot in a desert."` |
| `CompilerExamples.RobotBodyHasNoMarker` | App.tsx:215-216 | that filled text has no placeholder left |
| `CompilerExamples.UnboundMarkerKept` | App.tsx:236-238 | `"Hero: {{hero}}"` with only a `villain` binding stays as it is |
| `CompilerExamples.InitialHeroCompilesEmpty` | App.tsx:218-238 | with its initial record, `"Hero: {{hero}}"` compiles to `"Hero: "` |
| `CompilerExamples.TrailingMarkerCompilesEmpty` | App.tsx:215-238 | brace-free text followed by one marker has that single placeholder, and with the initial record compiles to the text alone |
| `CompilerExamples.NestedBracesLeaveMarker` | App.tsx:215-238 | `{{outer{{inner}}}}` has the single placeholder inner and compiles with its initial record to the marker `{{outer}}` |
| `CompilerExamples.NestedNames` | App.tsx:215-216 | in `{{outer{{inner}}}}` the scan captures only inner |
| `CompilerExamples.NestedReplace` | App.tsx:237 | replacing inner by `""` in `{{outer{{inner}}}}` leaves `{{outer}}` |
| `Library.Apply` | App.tsx:31 | a revision never changes a template's id |
| `Library.FirstWithId` | App.tsx:369 | the index found holds the id and no earlier template does |
| `Library.Find` | App.tsx:310 | `find` returns the first template with the id, and returns nothing exactly when no template has it |
| `Library.Revised` | App.tsx:29-33 | the list keeps its length and order; templates with the id are revised and all others are unchanged |
| `Library.Removed` | App.tsx:46 | exactly the templates without the id remain |
| `Library.RevisedKeepsIds` | App.tsx:29-33 | editing or optimising keeps the set of ids present |
| `Library.RevisedAbsentIsIdentity` | App.tsx:375 | an optimisation settling after its template was deleted changes nothing |
| `Library.RevisedIdempotent` | App.tsx:29-33 | saving the same edit twice equals saving it once |
| `Library.RemovedDistributes` | App.tsx:46 | filtering distributes over concatenation |
| `Library.RemovedKeepsOrder` | App.tsx:46 | the kept templates before and after any position stay in their original order around it |
| `Library.RemovedAbsentIsIdentity` | App.tsx:46 | deleting an id no template has leaves the list as it was |
| `Library.TemplateLibrary.constructor` | App.tsx:21-23 | the stored templates with nothing selected, edited or optimising |
| `Library.TemplateLibrary.SelectedTemplate` | App.tsx:310 | with a selection, the selected template is a listed template with that id |
| `Library.TemplateLibrary.Select` | App.tsx:82 | clicking a listed template selects its id |
| `Library.TemplateLibrary.SetDraftName` | App.tsx:103 | the draft name is the typed text |
| `Library.TemplateLibrary.SetDraftContent` | App.tsx:104 | the draft content is the typed text |
| `Library.TemplateLibrary.EditClick` | App.tsx:55-62 | the edit session opens on the template with its name and content as drafts |
| `Library.TemplateLibrary.CancelEdit` | App.tsx:64-68 | the edit session ends and the drafts are emptied |
| `Library.TemplateLibrary.Save` | App.tsx:25-43 | blank drafts change nothing; otherwise, when the editing id is truthy (neither `null` nor `""`, App.tsx:28), the edited template is revised, or a new template with the fresh id and the untrimmed drafts is appended after the unchanged others; then the session ends |
| `Library.TemplateLibrary.Delete` | App.tsx:45-53 | the templates with the id are removed; the selection is cleared only if it was that id, and the edit session only if it was editing that id |
| `Library.TemplateLibrary.StartOptimize` | App.tsx:368-372 | an unknown id is a no-op; otherwise the token becomes the id and the current content is sent, and a non-empty id disables every optimise button (App.tsx:88) |
| `Library.TemplateLibrary.SettleOptimize` | App.tsx:373-380 | success rewrites only the content of the templates with the id; failure leaves them; the token is released either way, which enables every optimise button again |
| `Library.TemplateLibrary.ClickOptimize` | App.tsx:88 | while a truthy token is held (`disabled={!!optimizingTemplateId}`), no optimisation starts; an enabled click on an unknown id issues nothing and leaves the token; an enabled click on a listed template starts its optimisation |
| `Workspace.Apply` | App.tsx:358-364 | patching a scene leaves its number, camera, setting, action and dialogue as they were |
| `Workspace.Patched` | App.tsx:358 | only position k is patched; length and every other scene are unchanged |
| `Workspace.PatchOutsideIsIdentity` | App.tsx:361 | a settle for a position the storyboard no longer has changes nothing |
| `Workspace.PatchesCommute` | App.tsx:358-364 | requests for different scenes do not interfere |
| `Workspace.ImageStates` | App.tsx:182-193 | of the viewer's three states (a spinner while loading is true, else the picture for a non-empty url, else the empty frame): a loading scene shows the spinner; a settled one never does; success shows the url; failure keeps the earlier url |
| `Workspace.LastSettleWins` | App.tsx:361-364 | of two settles for one scene, a later success decides the url and a later failure keeps the earlier result |
| `Workspace.Workspace.constructor` | App.tsx:301-307 | the stored story and storyboard, no flag raised |
| `Workspace.Workspace.SetStory` | App.tsx:139 | the story is the typed text |
| `Workspace.Workspace.StartGenerateStory` | App.tsx:312-315 | the generating flag is raised and the prompt is sent |
| `Workspace.Workspace.SettleGenerateStory` | App.tsx:314-321 | success replaces the story; the flag is lowered either way |
| `Workspace.Workspace.StartAutoFormat` | App.tsx:324-329 | an empty story issues nothing; otherwise processing is marked with the message, the story is sent and the format and storyboard buttons are disabled |
| `Workspace.Workspace.SettleAutoFormat` | App.tsx:329-336 | success replaces the story; processing and its message are cleared either way, so the format and storyboard buttons are enabled again exactly when the resulting story is non-empty (App.tsx:132-135) |
| `Workspace.Workspace.StartGenerateStoryboard` | App.tsx:339-344 | an empty story issues nothing; otherwise processing is marked with the message, the story is sent and the format and storyboard buttons are disabled |
| `Workspace.Workspace.SettleGenerateStoryboard` | App.tsx:344-351 | success replaces the whole storyboard; processing and its message are cleared either way, so the buttons are enabled again exactly when the story is non-empty (App.tsx:132-135) |
| `Workspace.Workspace.ClickAutoFormat` | App.tsx:132 | the button is disabled while processing or without a story, and then nothing starts; otherwise formatting starts |
| `Workspace.Workspace.ClickGenerateStoryboard` | App.tsx:135 | the button is disabled while processing or without a story, and then nothing starts; otherwise storyboard generation starts |
| `Workspace.Workspace.StartImage` | App.tsx:354-358 | a position without a scene issues nothing and changes nothing; otherwise only that scene is marked loading and its action is sent |
| `Workspace.Workspace.SettleImage` | App.tsx:359-365 | the scene now at the position gets the url on success, loading is cleared either way, and nothing else changes |
| `Workspace.Workspace.ClickImage` | App.tsx:194 | a scene that is loading issues no second request |

## Left out

- Compiler.NoMarkerLeft: "the compiled body holds no marker" is stated only for templates whose braces all belong to markers of bound variables, with brace-free values. Without that condition the statement is false, as `CompilerExamples.NestedBracesLeaveMarker` shows.
- Compiler.InitialBindingsLeaveNoMarker: stated under the same brace condition, for the same reason.
- The generation gateway (`services/geminiService.ts`) is not part of this model. Its replies reach the settle methods as outcome parameters. These facts about them are taken as given: a storyboard reply without a `scenes` list arrives as the empty list, and a reply that is not JSON arrives as a failure; an image reply without bytes is a failure; a successful image url is a `data:image/jpeg;base64,` data URI (so it is never empty); an optimised template is already trimmed.
- JavaScript `String.replace` gives `$&`, `$1` and `$$` a special meaning in the replacement value. The model inserts values literally.
- A `for…in` loop over an object lists integer-like keys such as `{{1}}` first, in ascending order. The model takes the record in insertion order. The order matters only when a value contains a brace or the template has braces outside markers.
- The per-key pattern is modelled for keys made of word characters, which is all that the record ever holds. A key with regular-expression metacharacters would build a different pattern.
- The fresh id `Date.now().toString()` is a parameter of `Save`. Whether it is unique depends on the clock and is not modelled.
- Persistence through `useLocalStorage` is not modelled: the persisted values are plain fields, initialised from constructor parameters.
- Localisation (`contexts/LocalizationContext.tsx`, `components/LanguageSwitcher.tsx`) is not part of this model. Translated messages such as the processing message are parameters.
- Rendering, `alert`, `console.error` and `scrollIntoView` are not modelled. The generate button's own gate (disabled while loading or while the topic is blank) is not modelled either.
- Real asynchronous scheduling is not modelled: only the start/settle split is. A second optimisation started by bypassing the disabled buttons would have its token cleared by whichever request settles first. That follows from `SettleOptimize` and is not modelled further.
