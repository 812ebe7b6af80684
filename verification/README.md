# A model of groovy-agent

This project models the parts of groovy-agent that carry its promises and proves properties
of them: the workspace boundary of its MCP server and the file tools behind it, the
clone-and-clean pass over rendered HTML, the exchange between MCP client and server, the
bounded agent loop with its context pruning, the JSON schema validator, and the line
utilities. `dafny verify dfyconfig.toml` checks everything.

The modules, from the ground up:

- `Results`, `Strings`, `Paths`: results and options, splitting and joining, and Go's path
  functions on lists of components.
- `Disk`: a file system as a map from component lists to files, directories and links, with
  the walk through links that `EvalSymlinks` and the kernel perform.
- `Workspace`, `FileTools`, `FileServer`, `FileEffects`, `MoveEffects`, `FileRules`, `Find`: path
  resolution, the edit each tool plans, the server that carries the edits out, what calls
  achieve, when they succeed and what sessions keep, and `find`.
- `Shapes`, `Dom`, `DomContent`, `DomClone`, `DomSelect`, `DomExtract`: HTML trees as values and
  as linked nodes on the heap, cleaning in place, copying, and the choice of a candidate.
- `JsonRpc`, `Client`, `ClientCalls`: the message loop of the server (JSON-RPC 2.0), the system of
  interleaved steps that client, reader and server make, and the loops of the client.
- `Context`, `Conversation`, `CallChecks`, `AgentLoops`, `AgentRuns`, `Agent`: pruning, pruning by
  whole exchanges, the checks on a tool call, the loop over an arbitrary engine, sessions, and
  the session class with the discovery and exposure of tools.
- `JsonSchema`, `JsonVerdicts`, `JsonReasons`: the validator and its declarative counterpart, which
  verdicts are possible, and what the reason of a rejection means.
- `Lines`, `Runs`, `Orders`, `Merging`, `MergingInPlace`, `Sorting`, `Columns`: lines, `uniq`,
  sorting by insertion, the block-wise merging of Go's `sort.SliceStable` as a function and in
  place, `sort`, `cut` and `paste`.

Where the source changes things step by step there is a class or a method with loops, proved
against a function; the promises are lemmas about that function. Replies of the model, results
of tools, the content of the disk, JSON decoding, name matching, HTML conversion and the order
in which Go visits a map are parameters, so every statement holds for all of them (the last
section names one restriction on map orders). The limits of the agent loop are parameters as
well.

Where code and documentation differ, the model follows the code:

- The description of `rm` speaks of removing links; the path is resolved first, so the file a
  link leads to is removed and the link stays.
- `mv` is described for files and empty directories; it moves any directory. It never replaces
  a directory, because `os.Rename` does not. The destination it answers need not resolve
  afterwards: it may have led through a link in the directory that was moved.
- `touch` and `cp` do not look at the last component before they open it, so a dangling link
  there is followed. This is the only way out of the workspace, and the confinement theorem
  says so exactly.
- The server records that it was initialised but never asks.
- The validator can panic: Go does not compare two arrays or two objects, and an enum may list
  one. It does so when the search meets such a candidate before an equal one, unless another
  check fails first, which can depend on the order of map iteration (`JsonVerdicts`).
- With `/` as the workspace, `inside` accepts `/` alone.
- The comparison of a numeric `sort` is not an order when numbers, texts or not-a-number values
  are mixed. What `sort.SliceStable` makes of such lines depends on how it works: Go's library
  is not part of the repository, and the model follows the algorithm of its `sort` package
  in Go 1.24.

Assumptions: the root of the file tools is the canonical workspace (`CanonicalWorkspaceIsReal`
shows that the server starts so); replies of the model carry the role "assistant", which the
program fills in only when it is empty; tool names reach `Run` as the client lists them.

## Model

| member | source | states |
|---|---|---|
| Paths.CleanIdempotent | internal/mcpserver/workspace.go:45 | cleaning a path a second time changes nothing |
| Paths.PartsAreClean | internal/mcpserver/workspace.go:45-47 | a cleaned path has no empty and no "." components, none at all of the ".." kind when it is absolute, and in a relative one ".." only in front |
| Paths.CleanKeepsMeaning | internal/mcpserver/workspace.go:45 | without links on the way a cleaned path leads where the path itself leads, from every directory |
| Workspace.InsideIsAncestry | internal/mcpserver/workspace.go:103-108 | on canonical paths the string prefix test of `inside` is component ancestry, so `/ws2` is not inside `/ws`; below `/` it accepts `/` alone |
| Workspace.DotDotTestIsComplete | internal/mcpserver/workspace.go:45-52 | the two ".." tests reject exactly the relative paths whose cleaned form has a ".." anywhere; the joined path is then canonical and inside, unless the workspace is `/`, so the check at line 50 cannot fail otherwise |
| Workspace.ResolvePathAccepts | internal/mcpserver/workspace.go:35-67 | `resolvePath` answers a path if and only if the argument is lexically acceptable, its walk through links ends there, and that is within the workspace; and it reports a missing path if and only if the walk of an acceptable argument ends at a missing entry |
| Workspace.ResolvedIsReal | internal/mcpserver/workspace.go:58-67 | what is resolved is an existing entry that is no link and lies within the workspace |
| Workspace.ResolvePathRefuses | internal/mcpserver/workspace.go:35-67 | the category of every refusal: an argument that is blank or holds a NUL; a violation of the workspace when the path is absolute, starts with a backslash, climbs out, or its walk ends outside or is broken off; and otherwise the path is missing |
| Disk.WalkBreaksOff | internal/mcpserver/workspace.go:58-66 | a walk breaks off as missing below a directory that lacks the next name, and as no directory at a file that is not the last component: only the first is told as a missing path |
| Workspace.TouchOfFound | internal/mcpserver/workspace.go:72-76 | a path that is found, or refused for another reason than that it is missing, is touched as it is resolved |
| Workspace.TouchOfMissing | internal/mcpserver/workspace.go:72-101 | for a missing path `resolveTouchPath` resolves the directory part and appends the last component, with the error of whichever step fails |
| Workspace.ResolvedTouchIsTouchable | internal/mcpserver/workspace.go:72-101 | a path from `resolveTouchPath` is an entry within the workspace, or a new name in a directory within it, or a link there that cannot be followed |
| Workspace.RelativePathResolvesBack | internal/mcpserver/workspace.go:111-117 | for every entry within the workspace, resolving its relative form gives the entry back if and only if that form is not blank and does not start with a backslash |
| Workspace.ResolveIsStable | internal/mcpserver/workspace.go:35-67 | for every accepted argument, resolving the relative form of the result gives the same result under the same condition, and only then |
| Workspace.CanonicalWorkspaceIsReal | internal/mcpserver/workspace.go:14-32 | the server starts if and only if its argument is not blank and the walk of it, made absolute, ends at a directory; the workspace is where the walk ends, a directory reached without any link |
| FileTools.CallIsConfined | internal/mcpserver/tools.go:289-435 | for each of the seven mutating tools, successful or not: what is outside the workspace is unchanged if and only if the call is no `touch`, and no `cp` with a source that can be copied, whose last component is a dangling link to a place outside; and the workspace stays a directory reached without links |
| FileTools.OpenedLinkGoesAhead | internal/mcpserver/tools.go:289-371 | a `touch` or `cp` that opens its target through a link succeeds if and only if, for `cp`, the source is a regular file within the size limit |
| FileTools.CallKeepsOutside | internal/mcpserver/tools.go:289-435 | no call removes or changes anything outside; at most it adds a file |
| FileTools.SessionIsConfined | internal/mcpserver/tools.go:289-435 | over every sequence of calls: what is outside is unchanged if and only if no call of the sequence leaves in that way, and the workspace stays a directory reached without links |
| FileTools.SessionKeepsOutside | internal/mcpserver/tools.go:289-435 | nothing outside is ever removed or changed, whatever a session does |
| FileTools.OtherToolsNeverLeave | internal/mcpserver/tools.go:311-327 | sessions without `touch` and `cp` leave everything outside unchanged whatever links there are |
| FileTools.LinklessSessionIsConfined | internal/mcpserver/tools.go:705-768 | no tool makes a link, so a session that starts with no link below the workspace leaves everything outside unchanged whatever it calls |
| FileTools.PlansAreSound | internal/mcpserver/tools.go:289-435 | each edit that a call plans can be carried out and stays within the workspace, except that one through a dangling link puts a file where there was none |
| FileRules.TouchRule | internal/mcpserver/tools.go:289-309 | `touch` succeeds if and only if the path can be touched and what is there is nothing, a file, or a link that can be opened; it leaves an existing file as it is and creates an empty one otherwise |
| FileRules.MkdirRule | internal/mcpserver/tools.go:311-327 | `mkdir` succeeds if and only if the path can be touched and is free, and then there is a directory |
| FileRules.WriteRule | internal/mcpserver/tools.go:705-768 | `write_file` succeeds if and only if the content is within the limit, not both flags are set, the path can be touched, and it is free or a file with one of the flags; the file then holds the content, behind the old one when appending |
| FileRules.CopyRule | internal/mcpserver/tools.go:329-371 | `cp` succeeds if and only if the source is a file within the limit and the destination another path that can be touched: free, a file with `overwrite`, or a dangling link that can be opened; the source then stands there, or where the link leads |
| FileRules.MoveRule | internal/mcpserver/tools.go:373-397 | `mv` succeeds if and only if the source exists and is not the workspace, and the destination can be touched: an entry with `overwrite`, when neither is a directory, or a free name that is not below a directory to be moved; nothing but the move happens |
| FileRules.RemoveRule | internal/mcpserver/tools.go:399-416 | `rm` succeeds if and only if the path leads to a file, which is then gone |
| FileRules.RemoveDirectoryRule | internal/mcpserver/tools.go:418-435 | `rmdir` succeeds if and only if the path leads to a directory other than the workspace with no entry below it, which is then gone |
| FileRules.ReadRule | internal/mcpserver/workspace.go:120-158 | exactly files can be read, from the start up to the limit of the server or a smaller one, and the flag tells whether more follows |
| FileRules.FileStays | internal/mcpserver/tools.go:289-435 | an existing file keeps its place and its content under every call that does not write there with a flag, replace it with the flag, move it or a directory above it, or remove it |
| FileRules.FileStaysThroughout | internal/mcpserver/tools.go:289-435 | so it does over every session in which no call does one of these |
| FileServer.Server.OpenFile | internal/mcpserver/tools.go:297-303 | opening for writing follows links, creates a missing last component and truncates as asked |
| FileServer.Server.ReadFile | internal/mcpserver/workspace.go:120-158 | the read through a buffer of one byte more than the limit gives the start of the file and says whether more follows; the limit asked for never raises that of the server |
| FileServer.Server.FillBuffer | internal/mcpserver/workspace.go:147-157 | the filled buffer gives the first bytes up to the limit, and the extra byte tells whether more follow |
| FileServer.Server.RunTouch | internal/mcpserver/tools.go:289-309 | the disk and the answer after `touch`, in every case |
| FileServer.Server.RunMkdir | internal/mcpserver/tools.go:311-327 | the disk and the answer after `mkdir`, in every case |
| FileServer.Server.RunWriteFile | internal/mcpserver/tools.go:705-768 | the disk and the answer after `write_file`, in every case |
| FileServer.Server.RunCopy | internal/mcpserver/tools.go:329-371 | the disk and the answer after `cp`, in every case |
| FileServer.Server.RunMove | internal/mcpserver/tools.go:373-397 | the disk and the answer after `mv`, in every case |
| FileServer.Server.RunRemove | internal/mcpserver/tools.go:399-416 | the disk and the answer after `rm`, in every case |
| FileServer.Server.RunRemoveDirectory | internal/mcpserver/tools.go:418-435 | the disk and the answer after `rmdir`, in every case |
| FileServer.Server.Handle | internal/mcpserver/tools.go:289-435 | one call carries out its plan and keeps the outside exactly when it does not leave through a link |
| FileServer.Server.HandleAll | internal/mcpserver/server.go:192-240 | a session of calls carries out all plans in order, answers each on the disk that the calls before it have left, and keeps the outside if and only if no call leaves |
| FileEffects.WrittenCanBeRead | internal/mcpserver/tools.go:705-768 | after a successful `touch`, `mkdir`, `write_file` or `cp` that did not go through a link, its path resolves to the entry with the intended contents, and nothing else on the disk has changed |
| FileEffects.WrittenIsRead | internal/mcpserver/workspace.go:120-158 | reading after writing gives the bytes written, up to the limit, and says whether that is all |
| FileEffects.WrittenThroughLink | internal/mcpserver/tools.go:289-371 | after a successful `touch` or `cp` through a dangling link there is one new file, with the intended contents, where the link leads to, and nothing else has changed; the path then resolves, to that file, if and only if it lies within the workspace |
| MoveEffects.MovedIsThere | internal/mcpserver/tools.go:373-397 | after a successful `mv` to another place the subtree of the source stands at the destination and nothing else has changed; the path of the source no longer resolves; the path of the destination resolves to the moved entry if and only if it did not lead through the source |
| MoveEffects.MoveThroughItself | internal/mcpserver/tools.go:373-397 | disks on which a `mv` succeeds and its destination does not resolve afterwards, because it led through a link in the moved directory |
| FileEffects.RemovedIsGone | internal/mcpserver/tools.go:399-435 | after a successful `rm` or `rmdir` the path no longer resolves; what is gone is the file or directory it led to and nothing else, so a link on the way stays |
| FileEffects.TouchFollowsDanglingLink | internal/mcpserver/tools.go:289-309 | a disk on which `touch` creates a file outside the workspace through a dangling link |
| FileEffects.BlankNameDoesNotResolveBack | internal/mcpserver/workspace.go:36-38 | an entry with a blank name resolves by `./` and its name but not by the relative form reported for it |
| FileEffects.DiskWithBlank | internal/mcpserver/workspace.go:36-38 | such a disk exists |
| Find.Visit | internal/mcpserver/tools.go:619-661 | one callback of the walk: the check for the workspace fails if and only if the workspace is `/`, a name that cannot be matched, for a bad pattern or an unknown mode, is the only other failure, and the variables count the hits so far |
| Find.FindBelow | internal/mcpserver/tools.go:584-682 | `find` reports the first hits of the walk up to the limit, says it was cut off exactly when the limit was reached, counts files and directories, and fails exactly when it meets an entry that is refused before the cut-off: any entry below `/`, otherwise one whose name cannot be matched; the error is that of the first entry refused |
| Find.HitsAreTheMatches | internal/mcpserver/tools.go:633-640 | the hits of a full walk are the matching files and directories below the start, each once |
| Find.HitsKeepOrder | internal/mcpserver/tools.go:619-661 | hits come in the order of the walk |
| Find.DirectoriesAreCounted | internal/mcpserver/tools.go:642-648 | the count of directories is their number among the hits |
| Find.ReportedLineResolves | internal/mcpserver/tools.go:641-648 | a reported line, without its trailing slash, resolves to the entry visited if and only if it is not blank and does not start with a backslash |
| Shapes.NoiseIs | webutils/browser.go:880-915 | exactly elements are noise, and only by their tag, by being hidden, inert or modal, by their role, or by a word in one of six identifying attributes |
| Shapes.FirstAttrSays | webutils/browser.go:934-941 | an attribute says what the first one with its key says, whatever the case of the key |
| Shapes.AsciiFoldsToLower | webutils/browser.go:917-923 | texts in ASCII are equal under folding if and only if they are equal in small letters |
| Shapes.PruneIsIdempotent | webutils/browser.go:865-900 | the recursive filter leaves nothing to remove, so filtering twice is filtering once |
| Dom.AppendChild | webutils/browser.go:954-956 | the link operation of the html package: the row of children grows by one at its end |
| Dom.RemoveChild | webutils/browser.go:869-872 | the link operation of the html package: one child leaves the row and all links of the others close up |
| Dom.Clean | webutils/browser.go:865-878 | cleaning in place, while the children are being walked, ends with links that agree with the cleaned layout throughout |
| Dom.CleanNext | webutils/browser.go:866-877 | one turn of that loop, in a heap where the earlier children are already cleaned |
| Dom.CleanChild | webutils/browser.go:869-876 | a child is unlinked or cleaned, and the walk goes on with the one that followed it before |
| DomContent.CleaningPrunes | webutils/browser.go:865-900 | the tree that is left is the recursive filter of the tree that was there |
| DomContent.SurvivorsAreTheClearNodes | webutils/browser.go:865-900 | the survivors are exactly the nodes with no removable node between them and the root, in their old order, and the root is always among them |
| DomClone.Clone | webutils/browser.go:943-958 | the copy consists of new nodes, is linked properly, and has the content of the original, which is not changed |
| DomClone.CloneChild | webutils/browser.go:954-956 | one turn of the loop copies one child with all that is below it and hangs it behind the earlier ones |
| DomClone.AppendTree | webutils/browser.go:954-956 | hanging one linked tree into another keeps both linked |
| DomSelect.FindElements | webutils/browser.go:847-863 | the matching nodes, in document order |
| DomSelect.AppendMatches | webutils/browser.go:814-831 | nodes not seen before are appended in order with the bonus and kind of their class, and remembered |
| DomSelect.CollectCandidates | webutils/browser.go:809-845 | the candidates are listed class by class, each class in document order |
| DomSelect.CollectClass | webutils/browser.go:832-843 | one class adds exactly its nodes that no earlier class had |
| DomSelect.DocumentClassesAre | webutils/browser.go:832-843 | the four classes of the program |
| DomSelect.CandidateMembers | webutils/browser.go:809-845 | a node is a candidate if and only if it is of some class: with bonus 60 as `main`, else 50 by its role, else 40 as `article`, else 0 as `body` |
| DomSelect.CandidatesAreOrdered | webutils/browser.go:818-822 | no node is a candidate twice, and bonuses never rise along the list |
| DomSelect.PreorderIsDistinct | webutils/browser.go:847-863 | a walk visits each node once |
| DomExtract.EvaluateCandidate | webutils/browser.go:755-773 | one candidate is copied, the copy cleaned, rendered, converted and assessed as the recursive filter of its content; the document is only read |
| DomExtract.PrunedContentDecides | webutils/browser.go:755-773 | contents that are equal once pruned give equal results |
| DomExtract.EvaluatedIsConverted | webutils/browser.go:756-773 | a result is usable if and only if something is rendered, the conversion succeeds and text is left; it is the trimmed conversion, assessed with the bonus of the candidate |
| DomExtract.SelectBest | webutils/browser.go:750-778 | the loop chooses among results that each come from the document as it was, however candidates are nested |
| DomExtract.ChosenIsFirstBest | webutils/browser.go:774-778 | every other usable result has a smaller score, or the same and no more text; each before the chosen one has a smaller score, or the same and less text; and there is no choice only if no result is usable |
| DomExtract.FirstBestIsUnique | webutils/browser.go:774-778 | that description determines the choice |
| DomExtract.Extract | webutils/browser.go:746-778 | collection and selection together, on a document that stays linked as it was |
| DomExtract.ExtractResult | webutils/browser.go:734-783 | success if and only if the text is not blank, address and HTML parse and some candidate is usable; each failure has its own message |
| JsonRpc.Server.RespondResult | internal/mcpserver/server.go:265-275 | a result, an internal error if it cannot be encoded, or nothing without an id |
| JsonRpc.Server.Dispatch | internal/mcpserver/server.go:144-172 | what one message writes and does to the tools, for every method |
| JsonRpc.Server.Serve | internal/mcpserver/server.go:120-142 | the loop writes the replies to the lines before cancellation, in order, and nothing else |
| JsonRpc.OneReplyPerAnsweredLine | internal/mcpserver/server.go:120-172 | over any input: exactly one reply per malformed line (parse error, null id) and per message with an id that is no notification, in input order, and none else; it has the id of the message, and carries the result, computed in the state the lines before have left, if and only if the method is known and the result can be encoded |
| JsonRpc.StateIsRunOfCalls | internal/mcpserver/server.go:161-165 | after any lines the tools are in the state that running them on the parameters of the `tools/call` messages with an id, in order, brings about; nothing else runs a tool |
| JsonRpc.CallsRunInTurn | internal/mcpserver/server.go:161-165 | each such message is answered, under its id, with the text that its tool gives after those before it |
| JsonRpc.RepliesGrow | internal/mcpserver/server.go:120-142 | replies already written do not depend on later input |
| Client.EncodedIdInjective | internal/mcpclient/client.go:120-122 | different request numbers have different ids |
| Client.TheEndsAreFit | internal/mcpserver/server.go:144-172 | the server of the repository echoes ids, answers no message without an id, and the ids of the client are distinct |
| Client.RepliesAreTheServers | internal/mcpserver/server.go:120-142 | the replies in the step system are those that the loop of the server writes |
| Client.StepKeepsInv | internal/mcpclient/client.go:93-154 | every step of client, reader and server, cancellations included, loses, repeats and reorders nothing and keeps the numbering |
| Client.RunKeepsInv | internal/mcpclient/client.go:93-154 | so does every run |
| Client.SuccessIsOwnReply | internal/mcpclient/client.go:117-154 | in every interleaving, a call that succeeds returns the reply to the last request sent, which is its own, computed after exactly the messages before it |
| Client.SuccessIsTheServersLastReply | internal/mcpclient/client.go:117-154 | what a successful call returns is the last reply that the loop of the server writes for everything sent |
| Client.NextReplyIsOwnOrLate | internal/mcpclient/client.go:141-152 | the next reply a waiting call can take is its own, or a late one with a smaller number; the id tells which |
| Client.OwnReplyIsOnItsWay | internal/mcpclient/client.go:141-152 | once the server has answered, the reply of the waiting call is the last one on its way, so the call never skips it |
| Client.IdsInFlightIncrease | internal/mcpclient/client.go:93-115 | ids in flight are distinct and increase along the way to the client |
| Client.CallCanSucceed | internal/mcpclient/client.go:117-154 | from any idle state a call that the server answers can run to its success and leave the system idle again |
| ClientCalls.Caller.Call | internal/mcpclient/client.go:117-154 | the receiving loop returns at the first arrival that is the own reply, a cancellation or an end of the transport, with that outcome |
| ClientCalls.SystemFollowsLoop | internal/mcpclient/client.go:117-154 | a waiting call of the step system returns and waits exactly as that loop does |
| Client.StoppedReaderEndsCall | internal/mcpclient/client.go:93-140 | once the reader has stopped, a waiting call returns by its own steps alone after at most the replies still in the channel |
| ClientCalls.ListTools | internal/mcpclient/client.go:207-238 | the listing succeeds if and only if it ends within the page limit with usable definitions under distinct names, and returns all of them in order |
| ClientCalls.AddPage | internal/mcpclient/client.go:219-230 | one page is added if and only if all names stay distinct and all definitions are usable |
| Context.EstimateTokens | internal/agent/context.go:14-16 | the least number of tokens that has room for the bytes of a text, four to a token |
| Context.ClampText | internal/agent/context.go:111-116 | a long text becomes its first bytes up to the limit and the marker; others stay |
| Context.CountTail | internal/agent/context.go:18-24 | the loops add up the tokens of all messages |
| Context.DropOldestExchange | internal/agent/context.go:100-109 | one step drops everything up to the next message that is no tool result |
| Context.DropUntilFit | internal/agent/context.go:78-90 | the drop loop terminates at the first cut from which the rest fits; its error for an empty tail is never returned |
| Context.FindUser | internal/agent/context.go:48-58 | the last message of the user |
| Context.CollectTail | internal/agent/context.go:60-69 | the messages after it, with results clamped |
| Context.PruneMessages | internal/agent/context.go:42-96 | pruning, in every case and with every error |
| Context.PruningKeepsTheLongestFit | internal/agent/context.go:42-96 | pruning fails exactly without a request or when nothing is left of the context after the reserved tokens, the tools, the first message and the request; otherwise it keeps the first message, the last request and the longest suffix of whole exchanges that fits |
| Context.LongestFitIsUnique | internal/agent/context.go:78-90 | there is one such suffix only |
| Context.PrunedFits | internal/agent/context.go:71-96 | what is sent, the tools and the reserved output fit the context together |
| Context.TokensHaveRoom | internal/agent/context.go:14-24 | the estimate of messages never falls short of their bytes, four to a token, and of eight tokens each |
| Context.PrunedHasRoom | internal/agent/context.go:71-96 | so the bytes that are sent have room in the context |
| Context.MessagesCost | internal/agent/context.go:18-24 | a message costs its texts and eight tokens for itself and for each call |
| Context.ToolsCost | internal/agent/context.go:26-36 | a tool costs its texts, four tokens for each keyword of its schema, and 64 |
| Context.ClampIsIdempotent | internal/agent/context.go:111-116 | clamping a clamped text changes nothing, although the marker makes it longer than the limit |
| Context.PruningIsIdempotent | internal/agent/context.go:42-96 | pruning its own result again changes nothing |
| Context.KeyTokensIgnoreOrder | internal/agent/context.go:26-36 | the token count of a schema does not depend on the order of map iteration |
| Context.DroppedNeverReturns | internal/agent/context.go:42-96 | as messages are added without a new request, the start of what is kept never moves back |
| Conversation.PruningIsByExchange | internal/agent/context.go:42-96 | on a conversation of exchanges, pruning drops whole exchanges from the front until the rest fits, and clamps results |
| Conversation.DroppedStaysDropped | internal/agent/context.go:78-90 | an exchange dropped from a conversation is dropped from every longer one |
| Conversation.FittingIsLongest | internal/agent/context.go:78-90 | no longer run of the latest exchanges fits |
| Conversation.AnswerIdsTell | internal/agent/toolcall.go:42-46 | a call keeps its trimmed id; calls without one get different ids in different rounds or places |
| CallChecks.CheckAccepts | internal/agent/toolcall.go:80-130 | a call passes if and only if it is of a known type, within the budget, of an exposed tool, and its arguments conform to the schema with limits and path in bounds; the order of map iteration does not matter |
| CallChecks.CheckRefuses | internal/agent/toolcall.go:80-130 | the category of every refusal, in the order of the checks |
| CallChecks.PathCheckAccepts | internal/agent/toolcall.go:134-150 | a path passes if and only if it is not blank, relative, without NUL and without a leading ".." once cleaned |
| CallChecks.AgentAndServerAgree | internal/agent/toolcall.go:134-150 | for paths without surrounding blanks and without a leading backslash the agent accepts the same ones as the text tests of the server; a leading backslash only the server rejects |
| AgentLoops.RunIsBounded | internal/agent/agent.go:265-293 | any run of the loop: at most one request a round, calls within the budget, every executed call allowed, exactly one text printed if and only if there is no error |
| AgentLoops.RunEndsAsTold | internal/agent/agent.go:265-293 | a run without an error has printed the trimmed content of the first reply without tool calls, or the message on the limit after all rounds; a failure of the model is that of the last request |
| AgentLoops.CallsAnswer | internal/agent/agent.go:280-287 | the calls of a reply are answered in order, each under its own id or the synthesised one |
| AgentLoops.RunOfExchanges | internal/agent/agent.go:260-289 | a run builds complete exchanges whose results are the answers to their calls, and every request prunes what has been built so far |
| AgentRuns.CallIsBounded | internal/agent/toolcall.go:41-77 | one call runs at most one tool, only after all checks, and its answer carries its id |
| AgentRuns.CallOutcome | internal/agent/toolcall.go:41-77 | exactly a call that passes runs a tool: the one it names, with its trimmed arguments, on its server; its answer carries the content that belongs to the result, and any other call changes nothing and is answered with an error, unless the validator panics |
| AgentRuns.SessionIsBounded | internal/agent/agent.go:252-293 | a session makes at most `rounds` requests and `calls` tool calls, each of an exposed tool with permitted arguments; the branch for a missing client is never taken; it prints once if it ends without an error and not at all otherwise |
| AgentRuns.SessionPrints | internal/agent/agent.go:265-293 | what a session prints, from the replies of the model |
| AgentRuns.RequestsAreConversations | internal/agent/agent.go:260-289 | every request is the system prompt, the user request and the longest fitting run of complete exchanges: a reply and exactly one result per call, in order, under its id, and with the content of the run that the call made or an error if it did not pass |
| AgentRuns.DroppedExchangeNeverReturns | internal/agent/agent.go:265-289 | from request to request the first exchange sent never moves back |
| Agent.FilterDiscovered | internal/agent/agent.go:202-229 | the loop keeps what the policy allows, a later definition replacing an earlier one of the same name |
| Agent.KeptAreTheAllowed | internal/agent/agent.go:202-229 | a name is kept if and only if it is allowed and advertised, and under it a definition of that name |
| Agent.KeptIsTheLast | internal/agent/agent.go:202-229 | the definition kept is the last one of its name |
| Agent.DiscoveredAreTheAllowed | internal/agent/agent.go:163-187 | every name that a server advertises and its policy allows is taken up, the core server first |
| Agent.BindTools | internal/agent/agent.go:163-187 | the two maps of `Run` have the same names, and a name that both servers advertise goes to the core server |
| Agent.BindOwn | internal/agent/agent.go:163-167 | every core tool is bound to the core server |
| Agent.BindOthers | internal/agent/agent.go:175-183 | a web tool is taken up unless its name is taken |
| Agent.ExposedToolsAreAllowed | internal/agent/agent.go:295-316 | whatever is advertised: exposed tools are bound, within the limit, and a tool that runs on a server was advertised by it and is allowed there |
| Agent.RunIsSafe | internal/agent/agent.go:158-316 | from what is advertised to what is run: with the maps that `Run` builds, in every session, whatever the model replies and the tools answer, the limits hold, no client is missing, and each server runs only tools of the profile that it advertised itself and the policy allows there, with permitted arguments |
| Agent.SessionTells | internal/agent/agent.go:252-293 | what the model and the user see of a session: every request starts with the system prompt and the prompt of the user and goes on with whole exchanges whose results report on their calls; and what is printed |
| Agent.UsableAreInOrder | internal/agent/agent.go:299-312 | the usable names are those of the profile, in its order, that were discovered with a schema that decodes |
| Agent.Session.ExposeProfile | internal/agent/agent.go:295-316 | the first usable tools of the profile are exposed, up to the limit |
| Agent.Session.RunToolCall | internal/agent/toolcall.go:41-77 | the new state and the answer for one call, in every case |
| Agent.Session.CallTool | internal/agent/toolcall.go:55-77 | the counter goes up before the client is looked up; the answer for every result |
| Agent.Session.AnswerCalls | internal/agent/agent.go:280-287 | the inner loop, which stops at the first fatal error |
| Agent.Session.Loop | internal/agent/agent.go:252-293 | the requests, the calls, the output and the error of a whole session |
| JsonSchema.ValidateAcceptsConforming | internal/jsonschema/jsonschema.go:34-145 | the validator accepts a value if and only if it conforms to the declarative definition, in whatever order maps are visited |
| JsonSchema.VerdictIgnoresOrder | internal/jsonschema/jsonschema.go:34-145 | acceptance depends neither on the order of map iteration nor on the path |
| JsonSchema.ScalarTypesAccept | internal/jsonschema/jsonschema.go:97-135 | over the raw schema: exactly a string, number or whole number of 64 bits within its bounds conforms, or a boolean; and anything without a type |
| JsonSchema.ObjectsAccept | internal/jsonschema/jsonschema.go:53-84 | over the raw schema: exactly objects with all required properties, no undeclared one if `additionalProperties` is false, and conforming values |
| JsonSchema.ArraysAccept | internal/jsonschema/jsonschema.go:85-96 | over the raw schema: exactly arrays whose length keeps the bounds and whose items conform |
| JsonSchema.EnumsAccept | internal/jsonschema/jsonschema.go:36-51 | an enum asks for a candidate that is the same as the value with only different ones before it |
| JsonSchema.EnumCompares | internal/jsonschema/jsonschema.go:154-163 | numbers are compared by value in any form, two arrays or two objects not at all, all else by equality |
| JsonReasons.RejectionsAreTrue | internal/jsonschema/jsonschema.go:34-145 | whatever the order of map iteration, the reason of a rejection holds of the part of the value that its place names |
| JsonSchema.ScalarEnumsNeverPanic | internal/jsonschema/jsonschema.go:154-163 | with enums of scalars throughout the schema the validator never panics, in any order |
| JsonSchema.EnumPanicsExactly | internal/jsonschema/jsonschema.go:40-51 | the search through an enum panics on some value if and only if the enum lists an array or an object, and the validator then panics with it |
| JsonVerdicts.OneLevel | internal/jsonschema/jsonschema.go:34-135 | the checks at a value itself decide the kind of the verdict, or leave it to its properties or items |
| JsonVerdicts.VerdictWasPossible | internal/jsonschema/jsonschema.go:34-135 | whatever the validator does in some order, reject or panic, is possible by the declarative definition |
| JsonVerdicts.FailsExactly | internal/jsonschema/jsonschema.go:34-163 | for a given schema and value: some order of map iteration makes the validator panic, or reject, if and only if the declarative definition allows it |
| JsonVerdicts.VerdictIsSettledExactly | internal/jsonschema/jsonschema.go:34-163 | the kind of the verdict is independent of order and path if and only if the value cannot both be rejected and panic |
| JsonVerdicts.ScalarEnumsSettle | internal/jsonschema/jsonschema.go:154-163 | with enums of scalars no panic is possible, so the verdict is settled |
| JsonVerdicts.OrderDecides | internal/jsonschema/jsonschema.go:75-83 | a schema and a value that are rejected in one order of map iteration and panic in another |
| Lines.SplitOfJoinLines | coreutils/coreutils.go:15-30 | joining lines and splitting them again gives the same lines |
| Lines.JoinOfSplitLines | coreutils/coreutils.go:15-30 | splitting a text and joining it again gives the same text with a newline at its end |
| Lines.CountIsNumberOfLines | coreutils/text.go:45-53 | the line count of `WordCount` is the number of split lines |
| Lines.ClampLines | coreutils/coreutils.go:41-50 | each line is cut to the maximum length, and a cut is reported exactly when a line changed |
| Lines.Head | coreutils/text.go:21-30 | the output splits into the first lines, cut to the maximum length, and a loss is reported exactly when there is one |
| Lines.Tail | coreutils/text.go:33-42 | the same for the last lines |
| Lines.HeadAndTail | coreutils/text.go:21-42 | a head and the matching tail make up all lines |
| Runs.RunsCode | coreutils/text.go:95-112 | the runs expand to the input lines, none is empty, and neighbours differ |
| Runs.CodingIsUnique | coreutils/text.go:95-112 | a list of lines has no other run-length coding |
| Runs.CountsSumUp | coreutils/text.go:99-110 | the counts add up to the number of lines |
| Runs.MeasureRun | coreutils/text.go:100-103 | the inner loop measures the run it stands at |
| Runs.Uniq | coreutils/text.go:95-112 | the output splits into one line per run, with its count if asked for |
| Runs.Pad | coreutils/text.go:105 | a count stands right-aligned in seven columns |
| Runs.CollectRuns | coreutils/text.go:98-111 | the outer loop goes from run to run and shows each once |
| Runs.UniqueAdjacent | coreutils/text.go:83-92 | the lines that differ from the one before |
| Runs.UniqIsUniqueAdjacent | coreutils/text.go:83-112 | without counts, `uniq` agrees with the other implementation that `sort` uses |
| MergingInPlace.SliceStable | coreutils/text.go:71 | `sort.SliceStable` in place, as Go does it: blocks of twenty lines sorted by insertion, then merged in passes; for every comparison the result is the function `SliceSorted` of the lines |
| MergingInPlace.InsertionSort | coreutils/text.go:71 | the swapping loops sort one block by insertion and touch nothing else |
| MergingInPlace.SymMergeInPlace | coreutils/text.go:71 | `symMerge` with its binary searches, its rotation and its two recursions is the function `SymMerge` of the two runs |
| MergingInPlace.Rotate | coreutils/text.go:71 | the loop of swapped stretches makes two neighbouring stretches of any lengths change places |
| Merging.SymMergeInterleaves | coreutils/text.go:71 | whatever the comparison says, merging keeps the elements of both runs, each run in its order |
| Merging.SymMergeMerges | coreutils/text.go:71 | where the comparisons between two runs form a staircase, `symMerge` is the plain merge from the end |
| Merging.MergingIsInserting | coreutils/text.go:71 | at every length, if no three lines get stuck, merging blocks gives what insertion throughout gives, and that is ordered |
| Merging.WeakOrderIsInserting | coreutils/text.go:71 | so it is under every weak order |
| Merging.SlicePermutes | coreutils/text.go:71 | sorting loses and adds nothing, whatever the comparison |
| Orders.SortSorts | coreutils/text.go:59-71 | under a weak order insertion gives a permutation that is ordered and keeps equally large lines in order |
| Orders.SortIsDetermined | coreutils/text.go:71 | there is one such result, so any stable algorithm gives the same |
| Orders.ReverseInPlace | coreutils/text.go:72-76 | the swapping loop reverses the lines |
| Sorting.Sort | coreutils/text.go:56-81 | `sort` with any flags, and what its output splits into |
| Sorting.SortKeepsLines | coreutils/text.go:56-81 | no line is added and none but repeated ones is lost |
| Sorting.BeforeIsTotal | coreutils/text.go:60 | the byte order is a total order |
| Sorting.BeforeIsByBytes | coreutils/text.go:60 | a line comes before another if and only if it is a proper start of it or has the smaller byte where they first differ |
| Sorting.TotalSortOrders | coreutils/text.go:59-80 | under a total order such as the byte order the result is ordered, downwards when reversed, and strictly without repeated lines |
| Sorting.ByteSortAscends | coreutils/text.go:56-81 | sorting by bytes puts lines in ascending order in these terms, descending when reversed |
| Sorting.ByteSortIsIdempotent | coreutils/text.go:56-81 | sorting by bytes a second time with the same flags changes nothing |
| Sorting.NumericSortIsStable | coreutils/text.go:61-76 | when every line is a number, the result is ordered by value and stable, and reversing turns ties round as well |
| Sorting.NumericSortAscends | coreutils/text.go:61-76 | lines that are numbers stand in the order of their values as reals, the infinities at the ends |
| Sorting.TextsSortByBytes | coreutils/text.go:65-67 | when no line is a number, sorting by value is sorting by bytes |
| Sorting.MixedLinesHaveNoOrder | coreutils/text.go:62-70 | numbers and texts such as 10, 1a and 9 go round in a circle, so no arrangement of them is ordered by this comparison |
| Orders.SortOrdersExactly | coreutils/text.go:71 | insertion, which sorts each block, leaves the lines ordered if and only if no three of them get stuck: in the order of the input, the third stays behind the larger of the other two although it comes before the smaller |
| Merging.StuckBlockSpoils | coreutils/text.go:71 | three lines that get stuck within one block of twenty stay out of order to the end |
| Merging.SliceOrdersExactly | coreutils/text.go:59-71 | up to twenty lines the result is ordered if and only if no three of them get stuck; at every length it is if none do, and it is not if three of one block do |
| Merging.OrdersEveryArrangement | coreutils/text.go:59-71 | at every length, sorting brings every arrangement of some lines in order if and only if the comparison is consistent on them, that is, whatever comes before another is told apart from it by every third |
| Sorting.NumericSortOrdersExactly | coreutils/text.go:61-71 | sorting by value: up to twenty lines are left ordered if and only if no three of them get stuck; at every length they are if none do, and they are not if three of one block do |
| Sorting.NumericSortOrdersEveryArrangement | coreutils/text.go:61-71 | at every length, sorting by value orders all arrangements of some lines if and only if the comparison is consistent on them |
| Sorting.NotANumberHidesOrder | coreutils/text.go:62-71 | a line that parses as not-a-number leaves a larger number in front of a smaller one |
| Sorting.NotANumberMayHideNothing | coreutils/text.go:62-71 | twenty-one lines of which three get stuck, but across blocks, and which come out ordered |
| Columns.Cut | coreutils/text.go:115-140 | `cut` fails exactly for an empty delimiter, no fields or a field below one; otherwise its output splits into the cut lines |
| Columns.SelectFields | coreutils/text.go:130-136 | the fields of one line, in the order asked for, absent ones passed over |
| Columns.SelectedAreInOrder | coreutils/text.go:130-136 | exactly the fields that are there are selected, in the order asked for |
| Columns.SplitColumns | coreutils/text.go:150-157 | the split inputs and the length of the longest |
| Columns.CollectRow | coreutils/text.go:160-165 | one row, with an empty cell for a column that has ended |
| Columns.CollectRows | coreutils/text.go:158-167 | all rows, joined |
| Columns.Paste | coreutils/text.go:143-169 | `paste` fails exactly without inputs; otherwise it joins the rows, short columns giving empty cells |
| Columns.CutOfPaste | coreutils/text.go:115-169 | cutting field i out of pasted columns gives column i, padded with empty lines to the longest, if no cell holds the one-character delimiter |

## Left out

- File permissions, timestamps, hard links, devices and other processes on the same disk: the file system is a tree with one writer.
- Go's path functions and `EvalSymlinks` work on strings; the model works on component lists, with the string tests of the code kept as string tests.
- Failing reads and writes of an existing file, and a copy that stops halfway.
- The order of `filepath.WalkDir` is a parameter of `find`; errors of the walk and a cancelled context during it are left out.
- The decoding of tool arguments (`requireString`, `optionalInt`) and of JSON in general: calls carry decoded values, and raw texts are decoded by parameters.
- Chromium control, navigation, screenshots, web search and the policy for addresses: foreign calls.
- Readability, HTML parsing, HTML to Markdown and the Markdown score: parameters of the extraction; the noise test is modelled.
- The `nil` cases of `cloneHTMLNode`, `cleanRenderedDOMNode` and `findElements`: the callers never pass one.
- HTTP, process start and stop, signals, timeouts and logging.
- Corrupted transports: the streams of the client deliver what was written, or end.
- Liveness of the client: a `select` may report a closed transport although a reply is queued, so only safety is claimed.
- Keyword scoring of profiles: the profile of a session is a parameter.
- The model client (`internal/llm`): an arbitrary sequence of replies and errors.
- `float64` rounding in the validator and in `sort`, and integers outside 64 bits in `jsonschema.Number`: numbers are reals, with not-a-number and the infinities apart in `sort`.
- UTF-8: a character of a string stands for one byte, except in `TrimSpace`, where it stands for a rune.
- The word count of `WordCount`, `Tr`, base64, SHA-256, `grep`, `cat`, `ls` and the readers replaced by `coreutils_run`: they would add easy members only.
- Merging.SliceOrdersExactly: beyond twenty lines the two conditions do not meet: three lines that get stuck across blocks may come out ordered or not, depending on the elements that the binary searches look at (`MergingMayFreeStuck`); what is exact at every length is `OrdersEveryArrangement`.
- Sorting.NumericSortOrdersExactly: the same, with `NotANumberMayHideNothing` and `NumericSortOrdersEveryArrangement`.
- JsonSchema.VerdictIgnoresOrder: an order of map iteration is chosen for a path text and an object, so an object that is met twice under one path text, such as a key "a.b" beside "b" below "a", is visited in one order both times.
- JsonSchema.ScalarEnumsNeverPanic: a condition on the schema alone, so it is sufficient only; `JsonVerdicts.FailsExactly` gives the exact one for a schema and a value.
- CallChecks.AgentAndServerAgree: is about paths without surrounding blanks; with them the agent judges the trimmed path and the server the path as it is.
