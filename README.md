# GhidraDeepSeekDecomprove in Dafny

A model of the code-improvement pipeline of the GhidraDeepSeekDecomprove
plugin. The plugin takes one function of the program loaded in Ghidra and
decompiles it. It sends the C text to the DeepSeek chat endpoint and asks for
variables to be renamed (and, optionally, comments). It strips the first and
the last line of the reply, which are usually fence lines. It saves the result
under a folder the user chooses and shows it.

The model is written as the plugin's code is built:

- `text.dfy` (module `Text`): the Python string operations the plugin uses, written out.
  They are `splitlines`, `"\n".join`, `split(" @ ")`, lexicographic `<=` on names and
  decimal formatting of the random number.
- `sanitizer.dfy` (module `Sanitizer`): `removeMarkers`.
- `inference.dfy` (module `Inference`): the messages, the payload and request of
  `sendToDeepSeekChat`, and its reply rule. The endpoint is an object that answers each
  request by a fixed function and records what was posted to it; a reply's body is
  already decoded JSON.
- `functions.dfy` (module `Functions`): `getSortedFunctions` is a loop over the program
  listing followed by a stable sort by name. This file also has the `"name @ address"`
  choice strings and their parse.
- `storage.dfy` (module `Storage`): output paths and the names `generateUniqueFileName`
  proposes. A `FileSystem` class holds a map from path to contents and a set of
  directories, and its methods `GenerateUniqueFileName` and `SaveImprovedCode` work on it.
- `pipeline.dfy` (module `Pipeline`): `improveDecompiledCode` as a method over the file
  system and the endpoint. The dialog answers and the number drawn for the default name
  are its inputs.
- `wrappers.dfy` (module `Wrappers`): `Option`.

Some points of the plugin's code that the model keeps as they are:

- `generateUniqueFileName` returns the joined path, not the bare file name
  (GhidraDeepSeekDecomprove.py:100).
- The orchestrator never calls it. It builds its default name from a fresh
  draw without any existence check (line 265).
- An empty decompiled text also ends the run, silently (line 251). A decompilation
  that did not finish ends it too.
- A reply whose content is not a string is returned as it is (line 66). `removeMarkers`
  then raises, so the run ends there (`NonTextReply`).
- `split(" @ ")` gives the pair back exactly when neither part holds `" @ "` *and* the
  name does not end in `" @"` (`Functions.ChoiceRoundTrip`,
  `Functions.ChoiceRoundTripOnlyIfUnambiguous`). Without that last condition
  `"f @" + " @ " + "1000"` splits after `"f"` (`Functions.ChoiceBoundaryOverlap`).

## Model

| member | source | states |
|---|---|---|
| `Text.SplitLines` | GhidraDeepSeekDecomprove.py:208 | no line of `splitlines` holds a line break; there are no lines exactly when the text is empty |
| `Text.SplitLinesOfJoin` | GhidraDeepSeekDecomprove.py:208-210 | lines without breaks, joined by `\n`, split back into the same lines when the last line is non-empty (an empty last line is lost, as `splitlines` drops it) |
| `Text.Join` | GhidraDeepSeekDecomprove.py:210 | `"\n".join` of no pieces is empty; otherwise the result is as long as the pieces plus one separator per gap, and starts with the first piece |
| `Text.Find` | GhidraDeepSeekDecomprove.py:246 | the result is the leftmost index at which the separator occurs; nothing means it occurs nowhere |
| `Text.SplitOn` | GhidraDeepSeekDecomprove.py:246 | `split` gives at least one piece, and joining the pieces with the separator gives the input back |
| `Text.SplitOnFirst` | GhidraDeepSeekDecomprove.py:246 | `split` scans from the left: without an occurrence the text is the only piece; otherwise the first piece ends at the leftmost occurrence (`Text.Find`) and the rest is the split of what follows it |
| `Text.SplitOnPiecesHoldNoSeparator` | GhidraDeepSeekDecomprove.py:246 | no piece of `split` holds the separator |
| `Text.NameLe` | GhidraDeepSeekDecomprove.py:128 | Python's `<=` on the names the sort compares: lexicographic by character code, a prefix sorting first |
| `Text.NameLeByFirstDifference` | GhidraDeepSeekDecomprove.py:128 | `a <= b` exactly when `a` is a prefix of `b` or, at the first position where they differ, `a` has the smaller character |
| `Text.NameLeReflexive` | GhidraDeepSeekDecomprove.py:128 | every name is `<=` itself |
| `Text.NameLeTotal` | GhidraDeepSeekDecomprove.py:128 | any two names are ordered one way or the other |
| `Text.NameLeTransitive` | GhidraDeepSeekDecomprove.py:128 | the order is transitive, so a list ordered pairwise by neighbours is ordered throughout |
| `Text.DecimalString` | GhidraDeepSeekDecomprove.py:96 | `"{}".format(n)` is a non-empty run of decimal digits with no leading zero |
| `Text.DecimalRoundTrip` | GhidraDeepSeekDecomprove.py:96 | reading the formatted digits back gives the number |
| `Text.DecimalLength` | GhidraDeepSeekDecomprove.py:94-96 | a number in [10^k, 10^(k+1)) is written with k+1 digits |
| `Sanitizer.RemoveMarkers` | GhidraDeepSeekDecomprove.py:204-211 | the result is strictly shorter than the input exactly when the input has two lines or more; with fewer it is the input unchanged |
| `Sanitizer.JoinedLinesNoLonger` | GhidraDeepSeekDecomprove.py:208-210 | re-joining the lines of a text with `\n` never gives a longer text |
| `Sanitizer.InnerLinesShorter` | GhidraDeepSeekDecomprove.py:209-210 | with two lines or more, the inner lines joined by `\n` are strictly shorter than the text |
| `Sanitizer.RemoveMarkersKeepsInnerLines` | GhidraDeepSeekDecomprove.py:208-210 | with two lines or more, and a non-empty last inner line when there are more than two, the lines of the result are the input's lines without the first and the last |
| `Sanitizer.RemoveMarkersOfJoin` | GhidraDeepSeekDecomprove.py:208-210 | for a text built as break-free lines joined by `\n` with a non-empty last line, the result is the inner lines joined by `\n` |
| `Sanitizer.RemoveMarkersFenced` | GhidraDeepSeekDecomprove.py:204-211 | code wrapped in an opening and a non-empty closing line is restored exactly, if it breaks lines only with `\n` |
| `Sanitizer.RemoveMarkersDropsUnfencedLines` | GhidraDeepSeekDecomprove.py:204-211 | without fences the rule still drops real code: of any three lines (the last non-empty), only the middle one is kept |
| `Sanitizer.RemoveMarkersNotIdempotent` | GhidraDeepSeekDecomprove.py:204-211 | for any fenced three-line code, one pass gives the code and a second pass strips it to its middle line |
| `Inference.SystemMessage` | GhidraDeepSeekDecomprove.py:41-43 | the system message starts with the fixed instruction; it is that plus the comment request if and only if comments are asked for |
| `Inference.UserMessage` | GhidraDeepSeekDecomprove.py:54-56 | the user message opens with the instruction and ends with the lead-in followed by the code; the comment request sits between them if and only if comments are asked for |
| `Inference.BuildPayload` | GhidraDeepSeekDecomprove.py:45-59 | the model is `deepseek-coder`; there are exactly two messages, system then user; the code is a suffix of the user content |
| `Inference.BuildRequest` | GhidraDeepSeekDecomprove.py:37-62 | the request goes to the chat URL with the bearer header and the JSON content type, and carries that payload |
| `Inference.CompletionContent` | GhidraDeepSeekDecomprove.py:66 | there is content exactly when the body is an object whose `choices` is a non-empty array whose first item is an object with a `message` object holding `content`; it is that `content` |
| `Inference.ReplyContent` | GhidraDeepSeekDecomprove.py:64-72 | with status 200 and a decoded body that has `choices[0].message.content`, that content is returned; for any other status, a transport fault or another body shape, the input code is returned unchanged |
| `Inference.ChatEndpoint.Post` | GhidraDeepSeekDecomprove.py:62-63 | posting appends the request to the endpoint's record of requests, and the reply is the endpoint's answer to it |
| `Inference.SendToDeepSeekChat` | GhidraDeepSeekDecomprove.py:31-72 | exactly one request is posted, the one built for the code; the result is what the reply rule makes of the endpoint's answer to it |
| `Inference.CompletionReturned` | GhidraDeepSeekDecomprove.py:64-66 | a 200 reply in the endpoint's completion format hands back the completion's text |
| `Functions.InsertByName` | GhidraDeepSeekDecomprove.py:128 | inserting gives one entry more (its order and contents are in the three lemmas below) |
| `Functions.InsertPermutation` | GhidraDeepSeekDecomprove.py:128 | inserting an entry keeps every entry, and adds no other |
| `Functions.InsertSorted` | GhidraDeepSeekDecomprove.py:128 | inserting into a list ordered by name keeps it ordered |
| `Functions.InsertStable` | GhidraDeepSeekDecomprove.py:128 | inserting does not reorder the entries that share a name |
| `Functions.SortByName` | GhidraDeepSeekDecomprove.py:128 | the sort is a permutation of its input |
| `Functions.SortByNameCorrect` | GhidraDeepSeekDecomprove.py:127-128 | the sort orders by name and is stable: entries with equal names keep their listing order |
| `Functions.GetSortedFunctions` | GhidraDeepSeekDecomprove.py:115-129 | the list holds one (name, entry address) pair per function walked, ordered by name, as a permutation of the walk, with equal names in walk order |
| `Functions.FormatChoice` | GhidraDeepSeekDecomprove.py:232 | the choice is the name, then `" @ "` right after it, then the address as the rest |
| `Functions.BuildChoices` | GhidraDeepSeekDecomprove.py:230-232 | one choice per listed pair, in the same order, each `name @ address` |
| `Functions.ParseChoice` | GhidraDeepSeekDecomprove.py:246 | whatever the split yields formats back to the same choice, and its address holds no `" @ "` |
| `Functions.ChoiceRoundTrip` | GhidraDeepSeekDecomprove.py:230-246 | splitting the choice of an unambiguous pair gives that pair back |
| `Functions.ChoiceRoundTripOnlyIfUnambiguous` | GhidraDeepSeekDecomprove.py:230-246 | only an unambiguous pair comes back whole from its choice |
| `Functions.ChoiceBoundaryOverlap` | GhidraDeepSeekDecomprove.py:246 | the name `"f @"` and address `"1000"` hold no `" @ "`, yet their choice splits into `"f"` and `"@ 1000"` |
| `Storage.PathJoin` | GhidraDeepSeekDecomprove.py:97 | the joined path starts with the folder and ends with the name |
| `Storage.PathJoinInjective` | GhidraDeepSeekDecomprove.py:110 | different names in one folder give different paths |
| `Storage.CandidateFileName` | GhidraDeepSeekDecomprove.py:96 | a proposed name starts with the function name and `_` and ends in `_imp.c` |
| `Storage.NineDigitsWide` | GhidraDeepSeekDecomprove.py:94-96 | every number the draw can yield is written with exactly nine digits |
| `Storage.CandidateFileNameShape` | GhidraDeepSeekDecomprove.py:94-96 | a proposed name is `{functionName}_{nine digits}_imp.c`, and its digits denote the draw |
| `Storage.CandidateFileNameInjective` | GhidraDeepSeekDecomprove.py:94-96 | different draws give different names for one function |
| `Storage.CandidatePathInjective` | GhidraDeepSeekDecomprove.py:94-97 | different draws give different paths in one folder |
| `Storage.FileSystem.Exists` | GhidraDeepSeekDecomprove.py:99 | `os.path.exists`: something is at a path when it is a regular file or a directory |
| `Storage.FileSystem.GenerateUniqueFileName` | GhidraDeepSeekDecomprove.py:87-100 | the result is the joined path for the first draw whose path does not exist, and every earlier draw's path exists; no result only when every draw is taken |
| `Storage.FileSystem.SaveImprovedCode` | GhidraDeepSeekDecomprove.py:102-113 | on a file system where no path is both a file and a directory, and keeping it so: the folder is created when nothing is at its path; the code becomes the whole content of `join(folder, fileName)`, replacing any earlier content; no other path changes; a folder path that is a regular file, or a file path that is a directory, fails the write |
| `Pipeline.GetDecompiledCode` | GhidraDeepSeekDecomprove.py:74-85 | there is text exactly when decompilation finished, and it is the decompiler's C text |
| `Pipeline.FunctionAt` | GhidraDeepSeekDecomprove.py:247-249 | a resolved function is in the program and has the parsed entry address; none is resolved only when no function has it |
| `Pipeline.OrDefault` | GhidraDeepSeekDecomprove.py:190 | a non-empty answer is kept and an empty one gives the default (also lines 220-221) |
| `Pipeline.Preflight` | GhidraDeepSeekDecomprove.py:224-251 | the run reaches the endpoint exactly when functions exist, a choice was made and parsed, a function is at its address and decompiled to non-empty text; the stage then carries the chosen name and that text; a stop is always one of the gate exits |
| `Pipeline.SelectFunction` | GhidraDeepSeekDecomprove.py:224-251 | the stage it reports is `Pipeline.Preflight` of the program and the selection, and the choices match the sorted list |
| `Pipeline.SaveAndDisplay` | GhidraDeepSeekDecomprove.py:262-272 | a non-text reply changes nothing; for a text reply the folder is created when nothing is at its path, and the stripped text is written to `join(folder, name or default name)` and displayed exactly when the folder is then a directory and that path is not (so never when the folder path was a regular file); otherwise the write fails and no file changes |
| `Pipeline.ImproveDecompiledCode` | GhidraDeepSeekDecomprove.py:213-274 | an empty folder answer gives the default folder; the choices match the sorted list; the endpoint receives one request, for the decompiled code, exactly when every gate passed, and none otherwise; before that nothing on disk changes; after it, the result is shown exactly when it can be written (never when the folder path is a regular file), and then the text written to `join(folder, name or default name)` is the one displayed, and it is `removeMarkers` of the reply's text |
| `Pipeline.FencedEchoRestoresCode` | GhidraDeepSeekDecomprove.py:258-262 | a reply that echoes the code between two fence lines gets exactly that code saved and shown |
| `Pipeline.FailedReplyStripsOriginal` | GhidraDeepSeekDecomprove.py:258-262 | on a transport fault the original code is what gets stripped, so a code of two lines or more is saved shorter than decompiled |

## Left out

- The Swing windows and dialogs are not modelled: `displayCodePopup`, `copyToClipboard`,
  `askAddComments`, `askFileName`'s dialog, `askString` and `askChoice`. Their answers are
  fields of `Pipeline.Answers`, where an empty string stands for an empty or dismissed dialog.
  The shown window is `Run.displayed`.
- Ghidra's own cancellation exceptions from `askString`/`askChoice` are not modelled. That code
  is not part of this model.
- The HTTP transport (`urllib2`) and the JSON codec (`json.dumps`, `json.loads`) are foreign
  library calls. The endpoint (`Inference.ChatEndpoint`) answers each `Request` by a fixed
  function and records the requests posted to it; a reply body is given already decoded.
  JSON numbers are kept to integers.
- The Ghidra APIs are collaborators and are not modelled: `DecompInterface`, `openProgram`,
  `decompileFunction` with its 30-second budget and its monitor, `getFirstFunction`/`getFunctionAfter`,
  `getFunctionManager`, `getAddressFactory().getAddress`. The listing is a sequence of
  `ProgramFunction` values, and each carries its decompilation result. An address is looked
  up by its text.
- `random.randint` is not modelled: its draws are given (`NineDigit` values).
- `Storage.FileSystem.GenerateUniqueFileName`: when every number it is given is taken, it
  stops with no path. The source goes on drawing for ever.
- `Storage.FileSystem.SaveImprovedCode`: `makedirs` creating missing parent folders is left
  out (only the folder itself is added). Failures other than "folder path is a file" and
  "file path is a folder" (permissions, a file name with separators) are left out too.
  Every text is taken to be writable. The plugin runs as Python 2 under Jython, so the
  reply text from `json.loads` is `unicode`, and `file.write` encodes it as ASCII. A
  character outside ASCII can then raise after `open(..., "w")` has already created or
  emptied the target file. In that case the plugin leaves the file empty and shows
  nothing; the model writes the text and shows it.
- `Pipeline.ImproveDecompiledCode`: encoding failures are not modelled. That covers the
  one in `saveImprovedCode` above, and any raised by the `"{}".format` logging of
  non-ASCII text at lines 252 and 259. A run the plugin would end there is modelled as
  writing and displaying the text. A failure at line 252 comes before the request is sent
  (line 258): there the model also posts the request the plugin would never send.
- `Storage.PathJoin`: a second component that is absolute or carries a drive letter is not
  modelled; it is always treated as relative. A drive-only folder such as `C:` gets a
  separator (`C:\name`), where `ntpath.join` gives `C:name`.
- The `Msg.info`/`Msg.error` logging and its string formatting are not modelled. They are
  diagnostic only.
- `Text.IsLineBreak` follows the line-boundary set of Python's unicode `splitlines`.
  Names are ordered by Unicode scalar value.
- service-worker.js is a browser fetch listener that passes requests through unchanged.
  It has no logic of the pipeline.
