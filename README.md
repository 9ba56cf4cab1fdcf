# Cycle Checkbox, modelled in Dafny

A model of the Obsidian plugin "Cycle Checkbox" (`main.js`). The plugin has one
editor command, "Cycle Checkbox State", and a settings tab that edits the
ordered list of checkbox markers the command cycles through.

- `checkbox.dfy`, module `Checkbox`: the command. `MatchCheckbox` is a hand
  parser for the one pattern `/^- \[(.)\] ?(.*)/`. `UpdatedLine` builds the
  new line from the three branches of `cycleCheckbox`. `CycleCheckbox` adds
  the new cursor. The lemmas prove the output form, the three branches stated
  independently, a round-trip between parser and writer, and cycle closure
  over repeated runs.
- `splicing.dfy`, module `Splicing`: JavaScript's `Array.prototype.splice` on
  values, and `Moved`, a reference definition of a move given index by index.
  It proves that the drop handler's two splices compute `Moved`, and that a
  move is a permutation that keeps the order of the other items.
- `settings.dfy`, module `Settings`: the settings class. Its field
  `basicCheckboxChars` is a `seq<string>`, and the four settings-tab edits
  are methods that reassign it, with `modifies` and frame `ensures`.

Modelling choices:

- Text is `seq<char>`. Each `char` stands for one UTF-16 code unit, the unit
  that JavaScript's `length`, indexing and a non-unicode regex `.` use.
- The regex's `.` refuses the four ECMAScript line terminators (LF, CR,
  U+2028, U+2029). The pattern is anchored only at the start. So a line
  holding a terminator still matches, and `(.*)` captures only up to the
  terminator. The model does the same (`TakeLine`). The editor splits lines
  at LF and CR, so `getLine` never returns those two, but U+2028 and U+2029
  can occur inside a line; the model then cuts the content at them, as the
  regex does. The lemmas about keeping content verbatim require
  `NoTerminators`.
- The marker list is a `seq<string>`, not a `seq<char>`. The edit handler
  stores whatever text the user types, which may be empty or longer than one
  unit. The cycle-closure lemmas take as a precondition a well-formed
  list (`WellFormedCycle`): non-empty, distinct single units, none of them a
  line terminator. A terminator entry breaks the cycle, because the pattern's
  `.` refuses it and the next run no longer sees a checkbox. The default list meets it
  (`Settings.DefaultIsWellFormedCycle`).
- `(currentIndex + 1) % checkboxChars.length` only sees non-negative
  operands, so Dafny's Euclidean `%` agrees with JavaScript's there.
- An empty list needs no guard. `includes` is false for every marker, so the
  line resets to `- [ ] `.
- The code follows the "flat" configuration: the blank `' '` is an ordinary,
  removable entry of the list. The code does no validation. It raises no
  index-out-of-range error and does not reject blank or multi-character
  entries. The model follows the code: the handlers' valid indices are
  `requires` clauses, and `SetCharacter` stores any string.

## Model

| member | source | states |
|---|---|---|
| Checkbox.TakeLine | main.js:44 | `(.*)` captures the longest prefix free of line terminators: a prefix of the input, with no terminator, ending at the input's end or just before a terminator |
| Checkbox.TakeLineWhole | main.js:44 | on a line with no terminator, `(.*)` captures all of it |
| Checkbox.ContentStart | main.js:44 | the ` ?` of the pattern: the content starts at index 6 exactly when a space follows `]`, otherwise at index 5 |
| Checkbox.MatchCheckbox | main.js:44-47 | the pattern matches exactly when the line starts `-`, space, `[`, one non-terminator unit, `]`; the marker is that unit; the content is the longest terminator-free prefix of what follows the optional space |
| Checkbox.FormatCheckbox | main.js:61-71 | the templates `- [${nextChar}] ${restOfLine}`, `- [ ] ${restOfLine}` and `- [ ] ${line}`: the written line is five units longer than marker and content together |
| Checkbox.ParseCheckbox | main.js:44-54 | a line written as `- [m] content` parses back to marker `m` and that exact content |
| Checkbox.ParseUnspaced | main.js:44 | the space after `]` is optional: `- [m]content` also matches with that content, when the content does not start with a space |
| Checkbox.MatchDecomposes | main.js:44 | conversely, a terminator-free matching line is `- [m]`, at most one space, then the content, and no more |
| Checkbox.NonMatchingExamples | main.js:44 | `- []`, `- [ab]`, `Plain text` and the empty line do not match |
| Checkbox.IndexOf | main.js:56-58 | `includes`/`indexOf`: -1 exactly when the string is absent; otherwise an index holding it, with no earlier index holding it |
| Checkbox.UpdatedLine | main.js:47-72 | the line the command writes; it always starts `- [`, and a non-matching line grows by exactly the six units of `- [ ] `; its branches are stated by the lemmas below |
| Checkbox.CycleOutputForm | main.js:47-72 | for every line and list, empty list included, the result is `- [` + marker + `] ` + content, where the marker is `" "` or an entry of the list and the content is the match's content or the whole line |
| Checkbox.KnownMarkerAdvances | main.js:53-64 | a matched marker whose first occurrence is index `i` becomes entry `(i + 1) % length`; the content is kept and exactly one space follows `]` |
| Checkbox.UnknownMarkerResets | main.js:65-67 | a matched marker absent from the list becomes `- [ ] ` + content |
| Checkbox.NonMatchingLinePrefixed | main.js:69-71 | a line that does not match becomes `- [ ] ` + the line, unchanged |
| Checkbox.EmptyListAlwaysBlank | main.js:56-71 | with an empty list every result starts `- [ ] ` |
| Checkbox.CycleCheckbox | main.js:36-80 | one run writes the updated line to the cursor's line; the new cursor has the same line index and its column is the updated line's length |
| Checkbox.ExampleAdvance | main.js:56-64 | `- [ ] Task` with `[" ", "/", "x"]` becomes `- [/] Task` |
| Checkbox.ExampleWrap | main.js:59-60 | `- [x] Task` wraps round to `- [ ] Task` |
| Checkbox.ExampleUnknown | main.js:65-67 | `- [?] Task` resets to `- [ ] Task` |
| Checkbox.ExampleUnspaced | main.js:44-64 | `- [/]Task` becomes `- [x] Task`, with the missing space put back |
| Checkbox.ExampleLines | main.js:61-71 | helper for the worked examples: the template applied to their markers spells their literal lines |
| Checkbox.ExamplePlain | main.js:69-71 | `Plain text` becomes `- [ ] Plain text` |
| Checkbox.EntriesDistinct | main.js:58 | in a well-formed list (`WellFormedCycle`: non-empty, distinct single units, none of them a line terminator) no earlier slot holds entry `i`, so `indexOf` finds each entry at its own index |
| Checkbox.CycleStep | main.js:53-64 | on a well-formed list, a normalised line of entry `i` becomes the normalised line of the next entry, round the end |
| Checkbox.UnspacedStep | main.js:44-64 | on a well-formed list, `- [m]content` without the space also steps to the next entry, and the space is written back |
| Checkbox.IterateRound | main.js:59 | a step that sends each entry of a round to the next goes `k` entries on in `k` steps, for up to one full round |
| Checkbox.RoundSteps | main.js:53-64 | one run sends each normalised line of the list to the next one |
| Checkbox.CycleTimesSteps | main.js:58-60 | `k` runs, `k` up to the list length, move a normalised line `k` entries on, wrapping round |
| Checkbox.CycleClosure | main.js:58-60 | on a well-formed list of `n` entries (distinct single units, none of them a line terminator), `n` runs bring a normalised line back to itself |
| Checkbox.FirstRunSteps | main.js:53-64 | the first run on any line whose marker is entry `i` gives the normalised line of entry `i + 1` |
| Checkbox.KnownLineReturns | main.js:44-64 | a line whose marker is on a well-formed list is, after `n` runs, its own marker and content with exactly one space after `]` |
| Checkbox.OnCycleAfterOneRun | main.js:47-72 | when `" "` is on a well-formed list, any terminator-free line lies on the cycle after one run: `n` further runs return it |
| Splicing.Splice | main.js:138 | `splice` removes `min(deleteCount, length - start)` items and inserts the new ones; the items kept plus the items removed are the old items plus the inserted ones, as multisets |
| Splicing.SpliceRemovesOne | main.js:138 | `splice(i, 1)` leaves the other items in order and returns exactly the item at `i` |
| Splicing.SpliceInsertsOne | main.js:163 | `splice(i, 0, x)` puts `x` at `i`; taking it back out gives the old array |
| Splicing.MoveBySplice | main.js:159-163 | the drop handler's remove splice followed by its insert splice computes the reference move `Moved` |
| Splicing.MovedProperties | main.js:159-163 | a move is a permutation; the moved item ends at the target; the other items keep their order; a move onto the same index changes nothing |
| Settings.DefaultCheckboxChars | main.js:5 | the default list `[' ', '/', 'x', '-', '>', '<']`; its lemma proves it a well-formed cycle holding the blank |
| Settings.DefaultIsWellFormedCycle | main.js:5 | the default list `[' ', '/', 'x', '-', '>', '<']` is six distinct single units, none of them a line terminator, and holds the blank |
| Settings.CycleCheckboxSettings.constructor | main.js:3-6 | a fresh settings object holds the default list |
| Settings.CycleCheckboxSettings.AddCharacter | main.js:102-103 | appends `" "` and leaves every earlier item unchanged |
| Settings.CycleCheckboxSettings.SetCharacter | main.js:129-130 | stores the typed text, which may be any string, in that slot; the length and every other slot are unchanged |
| Settings.CycleCheckboxSettings.RemoveCharacter | main.js:137-138 | the list loses exactly the item at the index; the others stay in order |
| Settings.CycleCheckboxSettings.MoveCharacter | main.js:155-163 | equal indices change nothing; otherwise the list becomes `Moved(old, dragged, target)`, a permutation with the dragged item at the target and the others in their old order |

## Left out

- Host integration is not modelled. This covers `Plugin`, `addCommand`, `editorCallback` and the settings-tab registration (main.js:9-23). The editor calls `getCursor`, `getLine`, `setLine` and `setCursor` are foreign. `CycleCheckbox` takes the cursor and the line as parameters and returns the line to write and the new cursor.
- Persistence is not modelled. `loadSettings` and `saveSettings` (main.js:26-33) use the host's async `loadData`/`saveData` and `Object.assign`. Only the default list is kept, as the constructor. The `saveSettings` call after each edit is also left out.
- DOM and UI construction is not modelled: headings, cards, inputs, buttons, styles, `listContainer.empty()`, re-rendering, and the drag event plumbing. That plumbing is `dataTransfer`, `parseInt` of attributes and CSS classes (main.js:89-101, 109-128, 135-136, 144-158, 168-170). Only the array edits the handlers perform are modelled.
- Settings.CycleCheckboxSettings.MoveCharacter: the indices are assumed to be valid card indices (`requires`). `parseInt` returning `NaN`, or a drop from outside the list, is not modelled.
- Settings.CycleCheckboxSettings.SetCharacter: the index is assumed in range (`requires`). A JavaScript assignment past the end would grow the array; the handler never does that, because the cards are re-rendered after every change of length.
- Checkbox.CycleTimesSteps: stated for up to one full round (`k <= |chars|`). Longer runs follow by applying `CycleClosure` again.
- Text: a character outside the Basic Multilingual Plane is one Dafny `char` but two UTF-16 code units in JavaScript. The model cannot represent lone surrogates. A marker such as an emoji would match in the model but not in the plugin's regex.
- The general regex engine is not modelled; only this one fixed pattern is written out as a parser.
