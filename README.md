# A verified model of the tool-calling coding agent

This project models the core of a small command-line coding assistant. The core is the `AIAgent` class in `main.py`. It has two parts:

- A **tool executor** with three filesystem tools: `read_file`, `list_files` and `edit_file`. The dispatcher `_execute_tool` turns a tool name and an argument dictionary into a result text and never lets an error escape.
- A **conversation loop** (`chat`). It appends the user's message to the history and sends the history to an inference client, behind a fixed system instruction and the three tool declarations. It records each reply. When the reply asks for tool calls, it runs them in order, appends one `tool` message per call and asks again. It stops at the first reply without tool calls. If the client raises, it answers `"Error: ..."`.

Modules, one per concern:

- `Names` (names.dfy): Python's string order and `sorted` on distinct names. It proves that sorting does not depend on the order the names were listed in.
- `Text` (text.dfy): Python's `in`, `find`, `split`, `join` and `str.replace` on literal text. `ReplaceAll` makes one scan from the left, so matches never overlap and text produced by the replacement is never rescanned. It is proved equal to `new.join(s.split(old))`.
- `Files` (files.dfy): an abstract filesystem. A location is a root (the working directory, or `/`) plus a sequence of names. The filesystem holds a map from location to file text, a set of directory locations, and two maps of *faults*, one for reading and one for writing. A fault stands for a failure the model does not analyse, with its message: a read fault is, for example, a file that does not decode as UTF-8; a write fault is, for example, a permission error. A file that fails to decode can still be overwritten, and writing it clears its read fault. The module also defines the calls the tools make, each with the error it raises: `os.path.exists`, `os.path.isdir`, `os.path.dirname`, `os.path.join`, `os.listdir`, `os.makedirs(..., exist_ok=True)`, and `open` in text mode for reading and for writing. Reading translates line endings as text mode does (`\r\n` and a lone `\r` become `\n`). Writing stores the text as given, with `\n` as the line separator. `os.makedirs` walks the prefixes of the path from the root: it skips existing directories, stops at the first file or write fault, and creates the rest. `Valid` is the well-formedness of a tree, and every operation keeps it.
- `Tools` (tools.dfy): `_read_file`, `_list_files`, `_edit_file` and `_execute_tool`. Each one is a specification function from a filesystem and its arguments to an `Effect`, which holds the result text and the filesystem afterwards. The step-by-step methods `ListFiles`, `EditFile` and `ExecuteTool` are proved to compute those functions.
- `Declarations` (declarations.dfy): the tool table built by `_setup_tools`, and the `ollama_tools` conversion done in `chat`.
- `Conversation` (conversation.dfy): the message history, the `AIAgent` class (`Agent`) and its `Chat` loop. The inference client is a `ScriptedClient` that answers each request with the next scripted outcome (a reply, or an exception it raises). It records every request it receives. Once its script is used up, it raises. `Turn` is the functional specification of one call of `chat`, and `Agent.Chat` is proved to follow it.

## Model

| member | source | states |
|---|---|---|
| Names.Below | main.py:140 | the order `sorted` uses is Python's `<` on `str`, under which no name is below itself |
| Names.Sorted | main.py:140 | `sorted` on distinct names gives a strictly ascending sequence with the same elements |
| Names.SortedIgnoresOrder | main.py:140 | two listings of the same set of entries sort to the same sequence, so the listing order of `os.listdir` does not matter |
| Names.ListOrder | main.py:140 | `os.listdir` yields every entry of the directory exactly once, in an order left unspecified |
| Text.Contains | main.py:160 | `old_text in content`: the empty text is in every string, and a text longer than the string is in none |
| Text.Find | main.py:160 | `find` returns the leftmost occurrence of the pattern, or reports that there is none |
| Text.ContainsFind | main.py:160 | `old_text in content` holds exactly when a leftmost occurrence exists |
| Text.MissingChar | main.py:160 | a pattern holding a character the string lacks is not in the string |
| Text.Split | main.py:163 | `split` gives at least one piece, and gives the whole string as its only piece exactly when the separator does not occur |
| Text.JoinWith | main.py:150 | `sep.join(parts)` starts with the first part and ends with the last |
| Text.SplitLeftmost | main.py:163 | the pieces of `split` form the leftmost decomposition: no occurrence starts inside a piece before its separator, and the last piece holds none |
| Text.SplitJoin | main.py:163 | joining the pieces of `s.split(old)` with `old` gives back `s` |
| Text.ReplaceAll | main.py:163 | `content.replace(old, new)` leaves the content unchanged when `old` does not occur, and when `new` is `old` |
| Text.ReplaceAllSplit | main.py:163 | `content.replace(old, new)` equals `new.join(content.split(old))`: every leftmost non-overlapping occurrence is replaced and nothing else changes |
| Text.ReplaceAllLeavesRep | main.py:163 | after replacing a pattern that occurs, the replacement text occurs in the result |
| Text.ReplaceAllAvoids | main.py:163 | a character in neither the content nor the replacement text is not in the result |
| Text.ReplaceAllNonOverlapping | main.py:163 | concrete scans where matches do not overlap: `"aaa"` with `"aa"`→`"b"` gives `"ba"`, `"aaaa"` gives `"bb"`, and `"aab"` with `"ab"`→`"a"` gives `"aa"` |
| Text.ReplaceAllNoRescan | main.py:163 | text that a replacement brings together is not searched again: removing `"ab"` from `"aabb"` gives `"ab"`, not `""` |
| Text.ReplaceAllUndo | main.py:163 | the reverse replacement restores the text when the edited text splits on `new` where the original split on `old` |
| Text.ReplaceAllUndoCounterexample | main.py:163 | the reverse replacement does not restore `"ab"` after replacing its single `"a"` with `"b"` |
| Files.JoinPath | main.py:141 | `os.path.join(path, item)` is `item` itself when `item` is absolute; otherwise it starts with `path`, ends with `item`, and adds at most one `/` between them |
| Files.Resolve | main.py:126 | the empty path names no location; a path names an absolute location exactly when it starts with `/`; every name of the location is non-empty, not `.`, and holds no `/` |
| Files.Describe | main.py:131-132 | `str(e)` of an error about a path starts with `[Errno ` and ends with the path in quotes; any other failure reads as its own message |
| Files.DirName | main.py:171 | `os.path.dirname` gives a prefix of the path, and gives `""` when the path has no `/` |
| Files.DirNameIsParent | main.py:171-173 | `os.path.dirname` of a path whose last part names an entry is empty exactly when the path has no `/`, and otherwise names the directory holding the entry |
| Files.Exists | main.py:136 | `os.path.exists("")` is false: the empty path names nothing |
| Files.IsDirPath | main.py:142 | a path for which `os.path.isdir` holds exists |
| Files.Universal | main.py:126-127 | text-mode reading leaves no `\r` in what it returns, and returns text without `\r` unchanged |
| Files.UniversalReplaces | main.py:126-127 | text-mode reading is `replace("\r\n", "\n")` followed by `replace("\r", "\n")` on the stored text, for every text |
| Files.UniversalExample | main.py:157-158 | `"a\r\nb\r"` is read as `"a\nb\n"` |
| Files.ReadText | main.py:126-127 | `open(path, "r").read()` succeeds exactly on an existing file without a read fault and returns its content with line endings translated; it reports "not found" only for a path that does not exist |
| Files.WriteText | main.py:175-176 | a successful `open(path, "w").write(text)` needs the parent directory to exist, stores exactly `text` at the path, clears the read fault there, and changes nothing else |
| Files.WriteTextValid | main.py:165-166 | writing a file keeps the tree well-formed |
| Files.MakeDirs | main.py:172-173 | after a successful `os.makedirs(..., exist_ok=True)` the path is a directory; files and faults are unchanged and directories are only added |
| Files.MakeDirsAll | main.py:172-173 | when no prefix of the path is a file and write faults sit only on existing directories, `os.makedirs` succeeds and adds exactly the prefixes of the path as directories |
| Files.MakeDirsBelowFile | main.py:172-173 | when a prefix of the path is a file, `os.makedirs` fails: it names the next prefix as not a directory, or reports that the file exists when the file is the path itself |
| Files.MakeDirsValid | main.py:172-173 | making directories keeps the tree well-formed |
| Files.ListDir | main.py:140 | `os.listdir` succeeds exactly on an existing directory without a read fault, and returns the names of its entries |
| Tools.ReadFile | main.py:124-132 | reading a readable file returns `"File contents of {path}:\n"` followed by its content with line endings translated; a path that does not exist and has no file among its ancestors returns `"File not found: {path}"` |
| Tools.Label | main.py:141-145 | an entry's label holds its name after a seven-character tag, and the tag is `[DIR]  ` exactly when `os.path.isdir` holds for the joined path |
| Tools.Render | main.py:147-150 | the listing text is `"Empty directory: {path}"` exactly when there are no entries |
| Tools.Listing | main.py:136-137 | listing a path that does not exist returns `"Path not found: {path}"` |
| Tools.ListFiles | main.py:134-152 | the step-by-step listing (list, sort, label each entry in a loop) returns the specified listing text |
| Tools.ListingIgnoresOrder | main.py:139-145 | sorting any enumeration of a directory's entries renders the same text |
| Tools.ListingOfDirectory | main.py:134-150 | a readable directory's listing shows each entry once, in ascending name order, labelled `[DIR]  name/` exactly when the entry is a directory and `[FILE] name` otherwise; no entries gives `"Empty directory: {path}"` |
| Tools.ListingExample | main.py:139-150 | entries `b.txt`, `a.txt` and directory `sub` are listed as `[FILE] a.txt`, `[FILE] b.txt`, `[DIR]  sub/` |
| Tools.Edit | main.py:154-180 | an edit never changes a write fault, removes at most the read fault of the path it writes, never removes a directory, and in replace mode adds none |
| Tools.EditFile | main.py:154-180 | the step-by-step edit (read, check, replace, write back; or make the directories and write) computes the specified effect, errors included |
| Tools.EditReplaceMode | main.py:156-168 | replace mode: the file's new content is `new_text.join(content.split(old_text))` for the content as read, no other location changes, and the result is `"Successfully edited {path}"` |
| Tools.EditTextNotFound | main.py:156-161 | replace mode without a match in the content as read returns `"Text not found in file: {old_text}"` and leaves the filesystem unchanged |
| Tools.EditCarriageReturn | main.py:156-161 | replace mode with an `old_text` holding `\r` never matches, because the content as read holds none: it returns `"Text not found in file: {old_text}"` and changes nothing |
| Tools.EditCreateMode | main.py:169-178 | create mode: the file holds exactly `new_text`, the directory from `os.path.dirname` exists, exactly the path's ancestors are added as directories, no other file changes, reading the file back gives `new_text` with line endings translated, and the result is `"Successfully created {path}"` |
| Tools.EditFrame | main.py:154-180 | in every outcome only the file at `path` can change; other files keep their contents, faults stay except the read fault at `path`, and directories are only added |
| Tools.EditValid | main.py:154-180 | every edit keeps the tree well-formed |
| Tools.EditUndo | main.py:156-168 | editing `old`→`new` and back leaves the file holding its content as read, under the split condition of `ReplaceAllUndo` and for a `new` without `\r` |
| Tools.EditUndoExact | main.py:156-168 | for a file without `\r`, editing `old`→`new` and back restores the filesystem exactly, under the same condition |
| Tools.Exec | main.py:105-122 | only `edit_file` can change the filesystem |
| Tools.ExecuteTool | main.py:105-122 | the dispatcher returns the specified result and filesystem for every name and argument dictionary |
| Tools.ExecUnknown | main.py:118-119 | a name outside the table returns `"Unknown tool: {name}"` and changes nothing |
| Tools.ExecListDefault | main.py:110-111 | `list_files` without `path` behaves as `list_files(".")` |
| Tools.ExecEditDefault | main.py:112-117 | `edit_file` without `old_text` behaves as if `old_text` were empty |
| Tools.ExecValid | main.py:105-122 | every tool call keeps the tree well-formed |
| Declarations.SetupTools | main.py:51-103 | the table has three tools with distinct names, which are exactly the names the dispatcher handles |
| Declarations.SchemasWellFormed | main.py:51-103 | each input schema is an object whose properties have distinct names and are strings, and whose required names are properties |
| Declarations.FirstMissing | main.py:107-117 | the first required argument that is missing, in declaration order (every one before it is present), or none when every required argument is present |
| Declarations.MissingRequired | main.py:107-122 | a call to a declared tool that lacks a required argument returns `"Error executing {name}: '{key}'"` for the first key missing and changes nothing |
| Declarations.RequiredSuffice | main.py:107-117 | a call with every required argument runs the tool itself |
| Declarations.UndeclaredIgnored | main.py:107-117 | arguments a tool does not declare do not affect its result |
| Declarations.ToOllama | main.py:187-197 | the conversion yields one `function` entry per tool, in order, carrying its name, description and schema |
| Declarations.ToOllamaInjective | main.py:187-197 | different tool lists convert to different declaration lists |
| Declarations.OfferedNames | main.py:187-197 | the model is offered `read_file`, `list_files` and `edit_file`, in that order |
| Conversation.ScriptedClient.Chat | main.py:210-214 | the client records the request and answers with the next scripted outcome, raising once the script is used up |
| Conversation.RunCalls | main.py:229-242 | running the tool calls gives one tool message per call, in order, each carrying the call's id (`""` when the call has none) |
| Conversation.RunToolCalls | main.py:229-242 | the loop over tool calls runs them in order, each on the filesystem the previous one left, and collects one tool message per call |
| Conversation.RunCallsShape | main.py:229-242 | the k-th tool message answers the k-th call with its executor result, run after the calls before it |
| Conversation.Agent.constructor | main.py:37-49 | a new agent has an empty history and the three tools |
| Conversation.Agent.SetupTools | main.py:51-52 | installs the tool table and changes nothing else |
| Conversation.Agent.Chat | main.py:182-251 | one call of `chat` follows `Turn`: same answer, history, filesystem and requests; the old history plus the user's message is a prefix of the new history, and what follows is a sequence of rounds |
| Conversation.Turn | main.py:199-214 | a turn sends at least one request and at most one more than there are scripted outcomes; the first request sends the system instruction followed by the history as the turn started |
| Conversation.TurnRounds | main.py:184-248 | the history only grows, and what a turn appends is a sequence of rounds: an assistant message followed by one tool message per call with that call's id; a reply without calls ends the turn |
| Conversation.TurnRequests | main.py:199-214 | every request carries the model, the offered tools, and the system instruction followed by a history between the one the turn started from and the final one |
| Conversation.TurnRequestsSuccessive | main.py:199-245 | consecutive requests differ by exactly one round: the history each sends is the previous one followed by an assistant message with tool calls and then, per call in order, one tool message carrying that call's id |
| Conversation.TurnLastRequest | main.py:216-248 | the final history is the one the last request sent, with at most the last reply added |
| Conversation.TurnEnds | main.py:226-251 | each request consumes one scripted outcome, and every outcome before the last was a reply with tool calls; the turn ends with the content of a reply without tool calls, which is the last message of the history, or with `"Error: {msg}"` for a raised exception or an exhausted script |
| Conversation.TurnValid | main.py:199-251 | a turn keeps the filesystem tree well-formed |
| Conversation.PlainReply | main.py:199-248 | a reply without tool calls gives one request and two new messages (user, assistant), and returns its content |
| Conversation.OneToolRound | main.py:199-248 | one tool call and then plain content gives two requests, one tool run and four new messages (user, assistant, tool, assistant) |

## Left out

- Ollama `Client` construction and the network call `client.chat` (main.py:42-45, main.py:210-214). They become the `ScriptedClient` stub. The `server` argument is therefore not modelled.
- Logging setup and every log call (main.py:19-27, 106, 121, 183, 236). This includes the `result[:500]` truncation, which only affects the log.
- `main()`: argument parsing, the banner, the standard-input loop and the handling of `KeyboardInterrupt` (main.py:254-306).
- The system instruction's wording is kept as an opaque constant. Nothing is proved about it.
- Operating-system failures are not analysed. Decoding errors and other read failures are one abstract read fault per location; permission errors and other write failures, including races on `os.makedirs`, are one abstract write fault per location. The model carries each fault's message. Symbolic links, `..` resolving to a parent, and the distinction between a trailing `/` and none are not modelled: `..` is treated as a plain name and trailing slashes are ignored.
- Files.WriteText: a read fault is taken to belong to the stored text (a decoding error), so a successful write clears it. A read failure that survives a write, such as a file whose permissions allow writing but not reading, is not modelled.
- The two roots are unrelated: an absolute path never names the same location as a relative one, even when it lies inside the working directory, whose own absolute path the model does not know. Statements that other files are unchanged (`Tools.EditFrame`) are per location in this sense.
- Files.Describe: Python shows the file name with `repr`, which switches to double quotes for a name holding `'` and escapes backslashes and control characters. The model always puts the path between single quotes as it is.
- A path holding a NUL character makes Python raise `ValueError` ("embedded null byte") before any call is made. The model treats NUL as an ordinary character.
- Writing in text mode stores the text as given: the model assumes a platform whose line separator is `\n`, where no translation happens on writing.
- Error messages that name a directory `os.makedirs` could not make give the location in normal form (names joined by `/`). For a path written with `//` or `.` parts, Python's message may spell the same directory differently.
- Tool arguments are modelled as a dictionary from names to strings. Arguments of other JSON types, and a `function` entry whose `arguments` is not a dictionary, are not modelled.
- A reply whose `content` or `tool_calls` key is present with the value `None` is not modelled. A missing key is modelled as `None` (an `Option`), and it is read as `""` or `[]` as `dict.get` gives.
- The `while True` loop has no termination measure in the original. The model's measure is the length of the script: the scripted client raises once its script is used up.
- The round trip "edit `old`→`new`, then `new`→`old`, restores the file whenever `old` occurs once" does not hold for `str.replace`. In `"ab"` with `old = "a"` and `new = "b"`, the text already contains `new` and the reverse edit rewrites that occurrence too. `Tools.EditUndo` proves the round trip under a sufficient condition, and `Text.ReplaceAllUndoCounterexample` exhibits the failure.
- Tools.EditUndo: the file is restored to its content as read, with line endings translated, rather than to its bytes on disk; `Tools.EditUndoExact` gives the exact restore for a file without `\r`.
