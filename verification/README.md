# Model of the Linux MCP daemon and its client

This project models the parts of the daemon `mcpd` and of its command line
client `linuxctl` whose correctness is hard to see by reading: protocols
between several actors, walks over structures that change or repeat, and
transformations that are meant to undo each other. Each module names the file
it models in its first line.

| module | what it models |
|---|---|
| `FileTree`, `Fsafe`, `Walk` | opening, creating and walking paths without following a symlink, one system call at a time, while other processes change the tree before every call |
| `Stdio` | the stdio server: a reader, one goroutine per request, a bounded channel and one writer, under any scheduler |
| `Router` | the client's router from event stream to waiting calls |
| `ReloadRace`, `Reload` | live configuration reload: as interleaved steps over the shared cells and locks, and as one change of the daemon's fields |
| `Authenticate` | which user a bearer token stands for, and the OS account pinned to a name on first use |
| `Usage` | disk usage: walk, pruning, hard links, ancestor sums on path strings |
| `DiskList` | block devices linked into a graph and printed as a tree |
| `Lines` | reading and replacing line ranges of a file |
| `Demux` | Docker's multiplexed streams, encoded and taken apart |
| `Paths`, `PathGrants` | lexical cleaning of paths, and the grants that are tested on it |
| `Chmod` | the mode language and what a parsed mode does |
| `Positional`, `Resolver` | which argument takes which word, what `get` resolves to, and the keywords completion offers |
| `YamlEdit`, `Admin` | the flat key/value list of a YAML mapping, and user administration on it |
| `TtlCache` | the cache whose lookup drops its lock before it deletes |
| `Redact` | masking of sensitive arguments |
| `Text`, `Sorting` | splitting, joining and sorting strings |

How the models are built:

* Files that change things step by step are classes and methods with loops,
  each proved against a function or a relation; properties of whole runs are
  lemmas about that function or relation.
* Other processes and other goroutines are not trusted. In `Fsafe` a strategy
  (`Environment`) changes the tree before every system call and may make any
  call fail; in `Stdio`, `Router` and `ReloadRace` every enabled step of every
  actor may come next; in `TtlCache` arbitrary critical sections run wherever a
  lock is free.
* `inside` in `FileTree` is any set of inodes such that other processes keep the
  entries of inside directories pointing inside or at symlinks. "Confined"
  theorems hold for every such set.
* Text is `seq<char>`, read as bytes where the program works on bytes. File mode
  bits are the set of the numbers of the bits that are 1. Integers are
  unbounded except for `strconv.Atoi`'s 64-bit range and the four length bytes
  of a stream frame.

Where the code does something other than what its comments or documentation
say, the model follows the code:

* `files/chmod` is announced as idempotent (internal/rpc/annotations.go:22). With
  `X` on files it need not be: `+x,-X` turns 0000 into 0111 and back.
  `Chmod.IdempotentOnFiles` says when it is: exactly if applying the mode twice
  to 0000 is applying it once.
* A reload stores users, limiter and grants under one lock so that they "switch
  together", but the limiter is read without that lock. A request can be limited
  by the new configuration and authorized by the old
  (`ReloadRace.LimiterCanBeAheadOfGrants`), exactly if it loads its grants between
  the two stores of the reload whose limiter it got
  (`ReloadRace.LimiterIsAheadIff`); the two are never further apart than one
  version (`ReloadRace.RequestUsesOneGrantVersion`).
* `closeSessions` says the tokens of the users it ends no longer authenticate. A
  user moved from a plaintext token to the digest of the same token is ended and
  may connect again with it (`Reload.EndedUserMayStillConnect`), and so may one
  of whose plaintext entry only the salt changed. The sentence holds exactly when
  no ended user's old entry shares a token with its new one
  (`Reload.EndedTokensAreDeadIff`).
* A call of the client whose answer has arrived can still report a lost
  connection, because `select` picks any ready case
  (`Router.AnsweredCallMayReportLostConnection`).
* Replacing the last line of a file that has no final newline by text whose last
  line is empty adds a final newline and loses the empty line; nothing else does
  (`Lines.OutsideIsKept`).
* Reading a range and writing it back removes carriage returns at line ends
  (`Lines.ReadThenWriteBack`).
* A bad frame header after good frames emits the whole stream again
  (`Demux.LateBadHeaderRepeats`). A byte comes out twice exactly when one of those
  frames has a payload (`Demux.RepeatsIff`).
* `MapDelete` removes only the first of several equal keys
  (`YamlEdit.DeleteIsRemoval`).
* An entry of a schema's `required` list that is no name ends positional
  assignment early (`Positional.BadEntryEndsFilling`). Words are left over only
  when every required argument is set exactly on the schemas in which every name
  behind such an entry is filled without the list
  (`Positional.LeftOverMeansCompleteIff`).
* With several bare tools in a group, completion offers the names of all, and
  `get` knows only the first one's (`Resolver.SecondBareToolIsRefused`). Every
  word offered is consumed exactly when each bare tool's name is some keyword or
  the first one's name (`Resolver.EveryOfferIsKeptIff`).
* An exclude pattern is said to take everything under a matched directory out
  (internal/tools/disks/usage/usage.go:241-244); the pattern `/` excludes nothing
  below the root, because no cleaned path starts with two slashes
  (`Usage.MatchesIs`).
* The lazy delete of the cache can remove a newer item
  (`TtlCache.LazyDeleteLosesFreshItem`).

## Model

| member | source | states |
|---|---|---|
| Fsafe.System.Open | internal/fsafe/fsafe_linux.go:44-78 | whatever others do meanwhile: success means the components of the cleaned path were, one after the other and each at its own moment, non-symlink entries of the directory reached before; the descriptor table gains the result and nothing else, failure leaves it as it was; when nobody interferes the outcome is that of ordinary path resolution, symlinks refused |
| Fsafe.System.Child | internal/fsafe/fsafe_linux.go:82-88 | one entry of a verified directory is opened as the object it was at that moment, never through a symlink; a refusal as symlink means a symlink was really there |
| Fsafe.System.Stat | internal/fsafe/fsafe_linux.go:134-145 | a node describes exactly the object behind its descriptor; a symlink or a failed call closes the descriptor |
| Fsafe.System.Names | internal/fsafe/fsafe_linux.go:91-118 | the listing holds plain names only, on a still tree each entry of that directory exactly once, and no descriptor is left open |
| Fsafe.UndisturbedIsPossible | internal/fsafe/fsafe_linux.go:44-118 | an environment that interferes with nothing and fails nothing meets all assumptions at once |
| Fsafe.System.OpenFile | internal/fsafe/fsafe_linux.go:172-179 | the file opened is the object the symlink-free walk reached, whatever the path has come to mean since; undisturbed it opens exactly what path resolution reaches, a directory for reading only |
| Fsafe.System.Reopen | internal/fsafe/fsafe_linux.go:162-168 | the new descriptor is for the same object; a directory is not opened for writing |
| Fsafe.System.MkdirAll | internal/fsafe/fsafe_linux.go:183-215 | the walk is one chain of non-symlink entries; every directory created is under a name of the path, in the directory the walk stood in at that name; undisturbed it reaches the existing directory or makes what is missing, and refuses symlinks and non-directories |
| Fsafe.System.ChildOrMake | internal/fsafe/fsafe_linux.go:196-203 | a component that is missing is made and entered, and nothing else is created; when no call fails by itself it is refused only for a symlink, for want of a directory, or because what was there after mkdirat, ours or another's, was gone again at the second look |
| Fsafe.System.CreateFile | internal/fsafe/fsafe_linux.go:221-249 | the file returned was an entry of the directory reached without symlinks, and then nothing was made but missing parents, or there was none and exactly that file was made; with O_EXCL it is always made; descriptors are balanced on every path; undisturbed it succeeds exactly if the path leads to a directory opened to be read, to another object without O_EXCL, or nowhere with O_CREAT and a parent, there or to be made; and the file is what the path led to, or new |
| Fsafe.System.OpenatFile | internal/fsafe/fsafe_linux.go:241-248 | whatever others do, success means: the entry found is opened, is no symlink, is no directory unless only read, and O_EXCL was not asked for, and nothing is made; or there was none, O_CREAT was asked for, and one file is made and opened |
| Fsafe.RefusalIs | internal/fsafe/fsafe_linux.go:241-247 | the error for each kind of entry: none without O_CREAT, any with O_CREAT and O_EXCL, a symlink, a directory to be written |
| Fsafe.System.OpenedStaysInside | internal/fsafe/fsafe_linux.go:56-78 | once the walk of Open, OpenFile or MkdirAll has entered an inside directory, the object returned is inside and no symlink |
| Fsafe.System.CreatedStaysInside | internal/fsafe/fsafe_linux.go:221-249 | the file CreateFile returns, found or made, is inside once its walk has entered an inside directory |
| Fsafe.SplitLastOfClean | internal/fsafe/fsafe_linux.go:222-226 | splitting a cleaned path leaves the components but the last, and the last |
| FileTree.ChainStaysInside | internal/fsafe/fsafe_linux.go:56-76 | every later object of a walk over plain names is inside, whatever others do between two steps |
| FileTree.CreationsStayInside | internal/fsafe/fsafe_linux.go:195-213 | from the moment the walk enters the inside, it creates only inside |
| FileTree.RunStaysConfined | internal/fsafe/fsafe_linux.go:183-215 | this process's own creations never break the confinement of the inside |
| Walk.Walker.Visit | internal/fsafe/walk.go:20-58 | the counters and lists are what the tree of calls adds up to; every step of it was an entry at its moment; descriptors end as they began; on a still tree each directory's entries are met exactly once, in name order, parents first |
| Walk.Walker.VisitEntries | internal/fsafe/walk.go:41-54 | the same for the loop over one directory's sorted names |
| Walk.Walker.VisitEntry | internal/fsafe/walk.go:43-53 | an entry is called, skipped as a symlink or reported, exactly one of the three |
| Walk.EveryCallIsCounted | internal/fsafe/walk.go:24-32 | changed, unchanged and failed calls are all the calls there were |
| Walk.AnswersAreTallied | internal/fsafe/walk.go:24-32 | changed is the number of calls answered with a change, unchanged that of those without, and the errors of the function are the paths of the calls answered with one, in order |
| Walk.WalkStaysInside | internal/fsafe/walk.go:15-19 | a walk started inside calls its function on inside objects only |
| Walk.WalkMatchesResolution | internal/fsafe/walk.go:33-53 | a path below the root that no failed call cut off is visited exactly when it resolves, as the object it resolves to, and skipped exactly when a symlink is in the way |
| Walk.CalledOnce | internal/fsafe/walk.go:20-58 | for every path below the root, the function is called once on the object the path leads to, under that path, and on no other object under it |
| Walk.WalkVisitsTheTree | internal/fsafe/walk.go:20-58 | on a tree that matches the walk, each plain path's object is called exactly once if the path resolves to it and not at all otherwise, but for paths lost to a failed call; every call is for such a path |
| Walk.SkipsAre | internal/fsafe/walk.go:43-47 | the paths reported as skipped are exactly those of the symlinks met |
| Walk.TroublesAre | internal/fsafe/walk.go:25-52 | the errors reported are exactly the failures of the function, of listing and of opening, each with the path of its object |
| Walk.Walker.Walk | internal/fsafe/walk.go:20-58 | on a still tree the walk visits the tree in that sense and reports every symlink and every failure met, under its path, and no others; when nothing fails and the tree has no cycle, no path is lost; the counters are the numbers of the answers the function gave, the k-th being its answer on the k-th object called |
| Sorting.SortIsSorted | internal/fsafe/walk.go:41 | sorting yields an ordered permutation |
| Sorting.SortedIsUnique | internal/fsafe/walk.go:41 | the ordered permutation is unique, so the order of calls does not depend on the listing |
| Stdio.InvKept | cmd/mcpd/stdio.go:125-167 | every step of reader, goroutines and writer keeps the invariant: never a send on the closed channel, at most 16 messages buffered, output and pending text are the messages taken |
| Stdio.RunIsSafe | cmd/mcpd/stdio.go:139-166 | in every run, at every moment the invariant holds; runs have at most 14 steps per input line and 5 more |
| Stdio.NoDeadlock | cmd/mcpd/stdio.go:125-167 | until serveStdio returns some step can be taken |
| Stdio.EveryStepGetsCloser | cmd/mcpd/stdio.go:142-166 | every step lowers a measure, so serveStdio returns under every scheduler |
| Stdio.ReturnedMeansServed | internal/rpc/rpc.go:11-49 | when it returns, every request with an id has had its final answer once, and an early one at most, only for resources/read; notifications none; undecodable lines one parse error each; the output is the messages, whole, in channel order |
| Stdio.RequestsAre | cmd/mcpd/stdio.go:142-158 | the requests served are as many as there are messages among the lines, in their order; errors are as many as undecodable lines |
| Stdio.OutputSplitsIntoMessages | cmd/mcpd/stdio.go:132-136 | splitting the output at newlines gives back the messages |
| Stdio.Serve | cmd/mcpd/stdio.go:125-167 | under any scheduler the server ends with everything served |
| Router.InvKept | cmd/linuxctl/main.go:887-902 | every step of every call and of the router keeps the invariant of mutex, map and channels |
| Router.DeliveredAtMostOnce | cmd/linuxctl/main.go:894-899 | in any run two deliveries are to different calls, duplicates on the stream or not |
| Router.DeliveryIsFinal | cmd/linuxctl/main.go:895-898 | what was delivered to a call stays what was delivered |
| Router.ReturnsItsOwnResponse | cmd/linuxctl/main.go:943-969 | a call returns only a response that carries its own id, the one delivered to it |
| Router.MutexHolderCanStep | cmd/linuxctl/main.go:894-899 | nobody blocks while holding the mutex: the one-element channel always has room |
| Router.DueResponseIsNeverMissed | cmd/linuxctl/main.go:943-969 | a response read after the daemon had the request is in the call's channel, or returned, as soon as the router is done with it |
| Router.SelectReturnsDelivered | cmd/linuxctl/main.go:963-974 | a waiting call with a delivered response is certain to return it exactly when the stream is open and no time limit is set |
| Router.AnsweredCallMayReportLostConnection | cmd/linuxctl/main.go:967-974 | a reachable state in which an answered call has reported a lost connection |
| ReloadRace.InvKept | cmd/mcpd/reload.go:24-60 | every step of every reload and request keeps the invariant, and no cell goes back to an older version |
| ReloadRace.RequestUsesOneGrantVersion | internal/rpc/tools.go:722-725 | in every run a request matched against users of version v is limited and authorized by versions at least v; its checks and its worker use one grant version, its time limit is no older, and the limiter is at most one version ahead |
| ReloadRace.VersionsWereLoaded | cmd/mcpd/http.go:112-264 | each version a request works with, of users, limiter, grants and time limit, is the one its cell held at the moment of the load |
| ReloadRace.CellsCountAcceptedReloads | cmd/mcpd/reload.go:28-58 | the cells count the accepted reloads: a rejected one changes nothing, and when none is under way all three agree |
| ReloadRace.ReloadComparesWithItsPredecessor | cmd/mcpd/reload.go:39-45 | the changes reported are against the very version being replaced |
| ReloadRace.LaterRequestsSeeTheReload | cmd/mcpd/http.go:112-115 | once a reload has returned, no request that arrives later is matched against older users or runs under older grants |
| ReloadRace.NoDeadlock | cmd/mcpd/uid_pin.go:85-88 | reloads, requests and uid pinning never deadlock on the three locks |
| ReloadRace.LimiterCanBeAheadOfGrants | cmd/mcpd/http.go:260-264 | the one-version gap between limiter and grants is reachable |
| ReloadRace.LimiterIsAheadIff | cmd/mcpd/reload.go:56-58 | in any run a request is limited by a newer configuration than authorizes it exactly if it loaded its grants between the two stores of the reload whose limiter it got |
| Reload.Daemon.ReloadConfig | cmd/mcpd/reload.go:24-60 | a rejected reload changes no field and closes nothing; an accepted one installs exactly what is on disk but for listener, containerized and socket settings, empties both caches, ends exactly the sessions that must end and counts them |
| Reload.Daemon.CloseSessions | cmd/mcpd/reload.go:226-240 | exactly the streams of these users are ended, however often, and their number is returned |
| Reload.Daemon.Reconfigure | internal/rpc/handler.go:60-72 | the settings are swapped and both caches are empty |
| Reload.ConfigChanges | cmd/mcpd/reload.go:99-172 | reported are all differences of users, of grants in every field, of limits, logging and time limits, and no others; to be closed are exactly the users removed or with another credential |
| Reload.ToolGrantsReported | cmd/mcpd/reload.go:133-147 | a tool grant is reported as removed, added or changed exactly if the old grants file gives it and the new one does not, the other way round, or both give it on other terms |
| Reload.ResourceGrantsReported | cmd/mcpd/reload.go:148-160 | the same for resources |
| Reload.UsersReported | cmd/mcpd/reload.go:103-124 | a user is reported exactly if it came, went, or has another token, salt or hash; sessions end exactly in the last two cases |
| Reload.CompareMaps | cmd/mcpd/reload.go:111-124 | the comparison goes through all keys of both maps once, in order |
| Reload.ReportIsComplete | cmd/mcpd/reload.go:111-124 | the edits reported turn the old map into the new, and there are none exactly when the two are equal |
| Reload.SortedKeysAreUnique | cmd/mcpd/reload.go:242-255 | the order of the keys leaves no choice, so reports do not depend on map iteration |
| Reload.NoChangesMeansEqual | cmd/mcpd/reload.go:70-77 | "No changes." is printed exactly when credentials, limits, logging and time limits are as they were and both grants files give every user the same tools and resources on the same terms |
| Reload.RestartOnlyChanges | cmd/mcpd/reload.go:200-221 | each setting is named exactly when it differs; nothing is named exactly when the configuration in effect is the one on disk |
| Reload.StartupSettingsSurvive | cmd/mcpd/reload.go:46-54 | after any sequence of reloads listener, containerized and socket settings are those of startup, all else that of the last accepted attempt |
| Reload.OpenSessionsKeepTheirCredential | cmd/mcpd/reload.go:111-124 | a user whose sessions stay open is still listed with an entry that accepts exactly the same tokens |
| Reload.EndedUserMayStillConnect | cmd/mcpd/reload.go:223-225 | two configurations between which a user's sessions end although its token is accepted before and after |
| Reload.EndedTokenIsAcceptedIff | cmd/mcpd/reload.go:223-225 | a token an ended user had is accepted for it again never if the user is gone, if its entry is plaintext exactly if the token is that text, and if it is hashed exactly if salt and token have that digest |
| Reload.ShareTokenIff | cmd/mcpd/reload.go:223-225 | two entries accept a common token exactly if the plaintext of either satisfies the other, or one text fits both digests |
| Reload.KnownTokenDecides | cmd/mcpd/reload.go:223-225 | for a digest without collisions, two hashed entries share a token exactly if the token one was made from fits the other |
| Reload.EndedTokensAreDeadIff | cmd/mcpd/reload.go:223-225 | no ended user's tokens authenticate it exactly if no such user's old entry shares a token with its new one, and they authenticate nobody exactly if it shares none with any new entry |
| Authenticate.Daemon.AuthenticateRequest | cmd/mcpd/http.go:106-139 | a name is answered only if the header is "Bearer " and a token that an entry of this name, and none before it, accepts; if none accepts, nothing is answered and nothing changes; if one does, it is refused exactly when the account behind its name differs from the pin; nothing but pin fields changes |
| Authenticate.Daemon.CheckAndPinUID | cmd/mcpd/uid_pin.go:73-129 | a name without an account or a pin passes, the latter being pinned; a pinned one passes exactly with the same uid, and a mismatch is noted |
| Authenticate.AfterPinIs | cmd/mcpd/uid_pin.go:90-126 | the first entry of the name gets the account's uid as its pin if it had none and keeps the one it has; the uid seen is noted; no other entry changes |
| Authenticate.AuthenticatingOnlyPins | cmd/mcpd/uid_pin.go:90-126 | no name, no credential and no pin that is set ever changes |
| Authenticate.OneAccountPerName | cmd/mcpd/uid_pin.go:32-35 | in any run of requests all that are answered for one name found the same account behind it |
| Authenticate.TokensKeepTheirName | cmd/mcpd/http.go:116-138 | a token stands for the same name before and after any run of requests |
| Usage.Usage | internal/tools/disks/usage/usage.go:77-156 | total, directory figures and file list are those of the entries visited and not already seen as another link; the total is 512 times the blocks of the nodes the walk came to and the sizes of those without a stat, or all sizes with apparent_size, each inode's first link alone being counted |
| Usage.TotalIs | internal/tools/disks/usage/usage.go:109-131 | the same, for the specification of the walk |
| Usage.WalkedIsAll | internal/tools/disks/usage/usage.go:83-107 | with nothing excluded and nothing on another device under one_file_system, the walk comes to every node of the tree |
| Usage.WalkStaysOnDevice | internal/tools/disks/usage/usage.go:102-107 | with one_file_system it comes to no node of another device |
| Usage.MatchesIs | internal/tools/disks/usage/usage.go:245-262 | an absolute pattern other than "/" excludes a path exactly if its components are a prefix of the path's, or it matches as a glob; one without a slash is matched with the name |
| Usage.FilesAre | internal/tools/disks/usage/usage.go:231-239 | listed are exactly the counted files of at least the threshold, or of at most its negative |
| Usage.Walker.Charge | internal/tools/disks/usage/usage.go:132-146 | the ancestor loop on path strings charges exactly the directories within depth from the entry's own up to the root, or only its own with separate_dirs |
| Usage.Walker.Look | internal/tools/disks/usage/usage.go:109-150 | an entry is counted unless its inode was seen before |
| Usage.Walker.Visit | internal/tools/disks/usage/usage.go:83-152 | the walk visits the unpruned entries, in order, also below a directory whose own info failed |
| Usage.FiguresAreSums | internal/tools/disks/usage/usage.go:132-146 | a directory within depth has the sum of what is counted at or below it, or of what is directly in it with separate_dirs; any other has no figure |
| Usage.FigureGiven | internal/tools/disks/usage/usage.go:138-140 | a directory has a figure as soon as one entry is charged to it |
| Usage.RootFigureIsTotal | internal/tools/disks/usage/usage.go:125-146 | the figure of the directory asked about is the total |
| Usage.FileRootHasNoFigures | internal/tools/disks/usage/usage.go:133-137 | for a path that is not a directory no figure is given |
| Usage.FigureIsSumOfSeparate | internal/tools/disks/usage/usage.go:141-144 | a directory's figure is the sum of the separate figures of all directories at or below it |
| Usage.CountedOnce | internal/tools/disks/usage/usage.go:109-115 | an inode with several links is counted exactly once |
| Usage.TotalIgnoresSiblingOrder | internal/tools/disks/usage/usage.go:109-131 | reordering siblings anywhere in the tree leaves the total as it is |
| Usage.ExcludedHidesAllBelow | internal/tools/disks/usage/usage.go:88-93 | nothing counted has an excluded directory on its way from the root |
| Usage.DirOfIsParent | internal/tools/disks/usage/usage.go:133-145 | the string operation behind the loop drops the last element of a cleaned path |
| Usage.SlashesAreElements | internal/tools/disks/usage/usage.go:70-75 | counting separators counts elements |
| DiskList.List | internal/tools/disks/list/list.go:66-124 | when nesting has no cycle: roots are exactly the shown devices nested in no shown one, every shown device is printed and no other, each line but a root's under the line of a device it nests in, and under every line a line for each device nested in its own, so that a device with two parents is drawn under both |
| DiskList.ShownAre | internal/tools/disks/list/list.go:66-75 | shown are exactly the devices of some size whose number does not start with "1:", or all |
| DiskList.LinkAll | internal/tools/disks/list/list.go:78-101 | the linking loops build exactly the child lists of the graph, and hasParent is everything that is some device's child |
| DiskList.ChildrenAreLinked | internal/tools/disks/list/list.go:81-101 | the children of a device are exactly its partitions and the devices built on it that are shown |
| DiskList.Flatten | internal/tools/disks/list/list.go:315-341 | the recursion over the linked objects appends the depth-first rows, each with its branch glyphs |
| DiskList.FlatListsAll | internal/tools/disks/list/list.go:315-341 | every device asked for is printed, and the children of all that is printed |
| DiskList.FlatIsNested | internal/tools/disks/list/list.go:315-341 | every deeper line stands in the subtree of the last line one level up, a device it is linked below, with that line's glyphs before its own |
| DiskList.FlatDrawsEveryChild | internal/tools/disks/list/list.go:315-341 | under every line, however often its device is printed, stands a line one level down for each of the device's children |
| DiskList.FlatFlagsRight | internal/tools/disks/list/list.go:315-341 | a line below the roots has the glyph of a last child exactly if no sibling follows |
| Lines.ReadLines | internal/tools/files/read/read.go:81-112 | succeeds exactly for a range that starts within the file and meets no line of 65536 bytes or more up to one line past its end; returns the lines from start_line, or the first, to end_line, or the last, each without a final carriage return |
| Lines.Scanner.Scan | internal/tools/files/read/read.go:92-106 | the scanner finds the same lines as splitting at newlines, and stops at an overlong one |
| Lines.NextLine | internal/tools/files/read/read.go:92-103 | one line at a time and all lines at once agree |
| Lines.Update | internal/tools/files/update/update.go:34-131 | a bad range changes nothing; append adds at the end; else the file becomes its lines with the range replaced, final newline as before |
| Lines.PastTheEnd | internal/tools/files/update/update.go:96-121 | a range that starts past the end adds the text as one line, with a final newline exactly if the file had one or was empty |
| Lines.OutsideIsKept | internal/tools/files/update/update.go:85-121 | lines outside the range stand unchanged around the new ones exactly unless the file has no final newline, the range reaches its last line and the last new line is empty; then the final newline too is as it was |
| Lines.ReadThenWriteBack | internal/tools/files/update/update.go:85-121 | writing back what reading a range returned leaves the file byte for byte as it was exactly when no line of the range ends in a carriage return |
| Lines.WriteThenRead | internal/tools/files/update/update.go:104-121 | after an update that keeps the end, the replaced lines read back as the lines of the new text |
| Lines.WrittenLines | internal/tools/files/update/update.go:118-121 | lines written to a file are its lines exactly when a final newline is written or the last line is not empty |
| Demux.Frames | internal/docker/client.go:273-294 | the loop emits the frames the byte stream stands for, into one builder or two |
| Demux.Demux | internal/docker/client.go:298-308 | the two texts are the payloads of the two streams within the byte limit |
| Demux.DemuxCombined | internal/docker/client.go:313-317 | the text is all payloads in frame order |
| Demux.DemuxOfEncoded | internal/docker/fakeengine/fakeengine.go:129-137 | decoding an encoded list of frames gives back exactly these frames |
| Demux.SidesOfEncoded | internal/docker/fakeengine/fakeengine.go:125-137 | the payloads of frames of kind 2 come back on standard error, those of kinds 0 and 1 on standard output |
| Demux.FrameLayout | internal/docker/fakeengine/fakeengine.go:125-137 | a frame byte by byte: kind, three zeros, the length with its most significant byte first, payload |
| Demux.DecodesCut | internal/docker/client.go:278-292 | an encoded stream cut anywhere yields the frames before the cut, the last payload cut short |
| Demux.LimitGivesPrefixes | internal/docker/client.go:298-308 | under any byte limit each stream comes back as a prefix of itself |
| Demux.LimitedIs | internal/docker/client.go:298-308 | the stream is cut at the limit and nowhere else |
| Demux.CombinedMergesTheStreams | internal/docker/client.go:310-317 | on every input the combined text is an order-keeping merge of the two streams |
| Demux.UnframedIsWhole | internal/docker/client.go:281-284 | a stream of eight bytes or more without a frame header at its start comes back whole as standard output; a shorter one is dropped |
| Demux.LateBadHeaderRepeats | internal/docker/client.go:281-284 | after good frames a bad header emits the whole stream again |
| Demux.EveryStreamParses | internal/docker/client.go:278-292 | every byte stream is the encoding of some frames followed by a tail that starts with no whole frame |
| Demux.EmittedIs | internal/docker/client.go:278-292 | of such a stream the frames are emitted, then nothing for a tail of less than a header, the payload there is for one cut short, and the whole stream for a bad header |
| Demux.RepeatsIff | internal/docker/client.go:281-284 | the text holds the stream's bytes in order and none twice, exactly unless a bad header follows a frame with a payload |
| Demux.BigOfValue | internal/docker/client.go:285 | a length read back is written with the bytes it was read from |
| Demux.ValueOfBig | internal/docker/client.go:285 | the length bytes give back the length |
| Paths.CleanIsIdempotent | internal/config/sudo.go:336 | a cleaned path is its own cleaned form, with the same components |
| Paths.ComponentsOfLonger | internal/config/sudo.go:336 | an element at the end of a path: "" and "." do nothing, ".." takes the last element away, at the root nothing, any other is added |
| Paths.PrefixIsComponentPrefix | internal/config/sudo.go:342 | a string prefix that ends at a separator is a prefix of the components |
| PathGrants.PathAllowed | internal/config/sudo.go:332-347 | accepts exactly when the path is absolute and the components of some absolute entry are a prefix of the path's, and returns the cleaned path |
| PathGrants.AcceptedPathIsStable | internal/config/sudo.go:324-331 | the path returned is clean already and is accepted again |
| PathGrants.AcceptanceIsInherited | internal/config/sudo.go:332-347 | everything below an accepted path is accepted |
| PathGrants.CoversRoot | internal/config/sudo.go:315-322 | holds exactly when every absolute path is accepted |
| PathGrants.CanReadResourceAsRoot | internal/config/sudo.go:366-398 | allows exactly what some prefix of the user's scheme grants, path prefixes by components |
| PathGrants.ResourceGrantCoversRoot | internal/config/sudo.go:352-363 | holds exactly when every absolute path of the scheme is readable |
| Chmod.ParseMode | internal/tools/files/chmod/chmod.go:139-184 | octal of at most five digits up to 7777, or comma-separated clauses; fails exactly when some part is no clause |
| Chmod.ParseClause | internal/tools/files/chmod/chmod.go:165-184 | a part is accepted exactly when it is letters of ugoa, one of +-=, and letters of rwxXst, and it means just that |
| Chmod.LettersAre | internal/tools/files/chmod/chmod.go:165-184 | the letters of the language |
| Chmod.Apply | internal/tools/files/chmod/chmod.go:151-225 | the function returned applies the clauses one after the other |
| Chmod.ClauseDoes | internal/tools/files/chmod/chmod.go:185-225 | what one clause does to each of the twelve bits, by class and permission letter: + sets, - clears, = sets and clears the rest but for setid of a directory, X asks for execute where there is some |
| Chmod.OctalModeIs | internal/tools/files/chmod/chmod.go:141-160 | octal digits give three bits each; refused exactly beyond five digits or if the fifth is not 0 |
| Chmod.ActsAsMask | internal/tools/files/chmod/chmod.go:185-225 | however many clauses there are, they act as one mask and one set of bits |
| Chmod.ModeIsAMask | internal/tools/files/chmod/chmod.go:151-225 | every mode is m -> (m and A) or B, with one A and B for directories and for modes without X, and for files with X one pair for executable files and one for others |
| Chmod.IdempotentWithoutX | internal/tools/files/chmod/chmod.go:185-225 | on directories, and without X on files, changing twice is changing once |
| Chmod.IdempotentOnFiles | internal/tools/files/chmod/chmod.go:197-201 | on files a mode is idempotent exactly when it is so on mode 0000 |
| Chmod.PlusXMinusXIsNot | internal/tools/files/chmod/chmod.go:197-201 | +x,-X turns 0000 into 0111 and back |
| Chmod.OtherBitsStay | internal/tools/files/chmod/chmod.go:207-222 | bits no clause is about stay as they are |
| Chmod.DirectoryKeepsSetid | internal/tools/files/chmod/chmod.go:146-222 | on a directory only a - clause naming s, or a five-digit octal mode, can clear setuid or setgid |
| Positional.MapPositionalArgs | cmd/linuxctl/resolver.go:489-555 | the words are dealt to the slots that the schema and the arguments already set determine, in order |
| Positional.FirstWordGoesTo | cmd/linuxctl/resolver.go:493-523 | the first word goes to the first of path, pid, device, host, url, key, value, service, name, user, content that the tool has and that is not set, to user only if nothing required is missing; as a number if the field is one and the word reads as one |
| Positional.FirstWordToRequired | cmd/linuxctl/resolver.go:527-553 | with no such field open, it goes to the first required argument not set; an array takes all words |
| Positional.AtoiReadsBack | cmd/linuxctl/resolver.go:514 | a printed number is read back, with a sign or without, exactly if it has 64 bits |
| Positional.OnlyDigitsAreNumbers | cmd/linuxctl/resolver.go:514 | only digits read as a number |
| Positional.HasUnsetRequired | cmd/linuxctl/resolver.go:477-487 | whether some required name has no value |
| Positional.SlotsAreFresh | cmd/linuxctl/resolver.go:501-503 | no slot is for an argument already set, and none comes twice |
| Positional.WordsAreConserved | cmd/linuxctl/resolver.go:489-555 | the words assigned, in order, followed by those left over are the words given |
| Positional.AssignedValuesStand | cmd/linuxctl/resolver.go:513-553 | every slot that took words holds their value in the end, arguments set before are unchanged, and nothing else is set |
| Positional.NothingLeftToFill | cmd/linuxctl/resolver.go:489-555 | if words are left over, every common field of the tool but user is set, every name of the required list before its first entry that is no name, and, if no name behind that entry is lost, every required one |
| Positional.LeftOverMeansCompleteIff | cmd/linuxctl/resolver.go:527-532 | left-over words mean that nothing required is unset, for all arguments and words, exactly when every name behind the first entry that is none also stands before it or is a common field of the tool other than user |
| Positional.BadEntryEndsFilling | cmd/linuxctl/resolver.go:527-532 | a required entry that is no name leaves a later argument unset although a word is left |
| Resolver.ResolveGet | cmd/linuxctl/resolver.go:409-427 | a keyword wins and is consumed, a tool before a resource before a template; any other words are for the bare tool |
| Resolver.BareTool | cmd/linuxctl/resolver.go:266-284 | the group's first bare tool takes no words, its own name, or data if it has a place for it |
| Resolver.KeywordsFor | cmd/linuxctl/completion.go:375-405 | the keywords offered are exactly the verbs and commands of the group's tools, resources and templates |
| Resolver.OfferedIsAccepted | cmd/linuxctl/completion.go:383-405 | with at most one bare tool in the group every keyword offered resolves and is consumed |
| Resolver.OthersAreDataOrRefused | cmd/linuxctl/resolver.go:257-265 | any other word but "" and "get" is accepted exactly when the bare tool can take a word, and then as data, unconsumed |
| Resolver.TakesWordsIs | cmd/linuxctl/resolver.go:237-257 | a tool takes words exactly if positional assignment has a slot for the first one, unless its required list starts with an entry that is no name |
| Resolver.ActionsAreNotReached | cmd/linuxctl/resolver.go:142-190 | get never calls a tool one of whose required parameters has a fixed choice |
| Resolver.OtherToolsAreOffered | cmd/linuxctl/completion.go:375-405 | every other tool of the group with a verb is offered |
| Resolver.CommandIs | cmd/linuxctl/resolver.go:274 | a bare tool's keyword is what follows the first slash of its name |
| Resolver.SentinelCallsBareTool | cmd/linuxctl/resolver.go:225-235 | the word get is a keyword of its own: it is consumed, and never data |
| Resolver.SecondBareToolIsRefused | cmd/linuxctl/resolver.go:266-284 | with two bare tools the second one's name is offered and refused |
| Resolver.ConsumedIffReaches | cmd/linuxctl/resolver.go:257-284 | a first word is consumed exactly when it is a keyword or the name of the first bare tool |
| Resolver.EveryOfferIsKeptIff | cmd/linuxctl/completion.go:383-405 | every keyword offered is consumed, whatever follows it, exactly when the name of each bare tool of the group is some keyword or the first bare tool's name |
| YamlEdit.Node.MapGet | internal/yamledit/yamledit.go:19-29 | the value of the first entry with the key |
| YamlEdit.Node.MapSet | internal/yamledit/yamledit.go:33-41 | the first entry's value is replaced in its place, or an entry is appended |
| YamlEdit.Node.MapDelete | internal/yamledit/yamledit.go:44-52 | the first entry is cut out, and whether there was one |
| YamlEdit.GetIsLookup | internal/yamledit/yamledit.go:19-29 | MapGet is lookup in the map the list stands for |
| YamlEdit.SetIsUpdate | internal/yamledit/yamledit.go:31-41 | MapSet is assignment in that map and keeps all other keys in order |
| YamlEdit.DeleteKeepsOthers | internal/yamledit/yamledit.go:44-52 | MapDelete keeps every other key, its value and the order |
| YamlEdit.DeleteIsRemoval | internal/yamledit/yamledit.go:43-52 | MapDelete is removal from the map exactly when the key occurs at most once |
| YamlEdit.EditsKeepUnique | internal/yamledit/yamledit.go:33-52 | edits keep keys unique |
| Admin.Files.CreateUser | cmd/linuxctl/mcpd_admin.go:271-364 | succeeds exactly for a name that is not empty, of no root account and not in use; then one entry is appended and a fresh grant block set |
| Admin.NewEntryIs | cmd/linuxctl/mcpd_admin.go:304-308 | a new entry has the name, the salt, the hash and the time of creation, and nothing else |
| Admin.Files.DeleteUser | cmd/linuxctl/mcpd_admin.go:391-435 | refused for an unknown name; else the entry and the grants are removed |
| Admin.Files.UpdateUser | cmd/linuxctl/mcpd_admin.go:441-496 | refused for an unknown name; else the entry is rotated in its place |
| Admin.CommandDoes | cmd/linuxctl/mcpd_admin.go:271-496 | a command changes the entry and grants of its own user as it says, of nobody else, and keeps usernames unique |
| Admin.GrantsAreOfLatestCreate | cmd/linuxctl/mcpd_admin.go:334-359 | after any run a user's grants are those of its latest create and none after a delete, whatever updates and other users did |
| Admin.OthersUntouched | cmd/linuxctl/mcpd_admin.go:271-496 | a user no command was about keeps its entry and its grants |
| Admin.RotationIs | cmd/linuxctl/mcpd_admin.go:468-496 | a rotated entry has the new salt and hash, no plaintext token and no pinned uid, a creation time, and all else as before |
| Admin.FreshBlockIs | cmd/linuxctl/mcpd_admin.go:343-359 | a fresh block grants exactly the tools named, and no resource |
| TtlCache.Cache.Get | internal/cache/cache.go:27-45 | whatever runs after its read: a hit exactly for an item present at the read and not expired at the check, and it is the one last set and not deleted or cleared; an expired one is deleted |
| TtlCache.Cache.Set | internal/cache/cache.go:48-56 | the item is set with its expiry |
| TtlCache.NothingFromBeforeClear | internal/cache/cache.go:65-71 | what is promised after a Clear was set after it |
| TtlCache.GetAfterClear | internal/cache/cache.go:65-71 | a Get that starts after a Clear returns only what was set after the Clear |
| TtlCache.ItemsKeepPromises | internal/cache/cache.go:36-42 | an item present is the one promised; one promised is present unless a lazy delete came after it was set: lazy deletes cause only misses |
| TtlCache.LazyDeleteLosesFreshItem | internal/cache/cache.go:36-42 | a newer item removed by an older lookup's lazy delete |
| Redact.RedactValue | internal/rpc/tools.go:694-720 | the loops over fields and items mask what the definition masks |
| Redact.HidesExactlySensitive | internal/rpc/tools.go:691-720 | two values redact to the same thing if and only if they differ nowhere but below sensitive keys, at any depth and inside arrays |
| Redact.SensitiveIs | internal/rpc/tools.go:694-720 | a key is sensitive exactly if it has one of eleven words in it, in any case |
| Redact.SensitiveKeysShowTheMask | internal/rpc/tools.go:707-717 | such a key shows the mask wherever it is met |
| Redact.RedactionIsIdempotent | internal/rpc/tools.go:694-720 | redacting twice is redacting once |
| Redact.UnchangedIffNothingToHide | internal/rpc/tools.go:694-720 | a value is left as it is exactly when every sensitive key already carries the mask |
| Redact.ClearPathsShow | internal/rpc/tools.go:707-717 | on a path without a sensitive key the log shows what is there |
| Text.SplitJoin | cmd/mcpd/stdio.go:132-136 | pieces without the separator survive joining and splitting |

## Left out

- Walk.Walker.Visit: the recursion is bounded by a `fuel` argument, because a tree that keeps changing can be walked for ever; on a still tree without cycles a sufficient bound is never reached.
- Fsafe.System.Names: the directory is listed in one step instead of by repeated getdents calls, so an entry that changes between two of them is not modelled.
- Usage.Usage: the path is absolute, as HandleToolsCall demands (internal/rpc/tools.go:833); sizes are unbounded, and the sorted printing of directories with its threshold is not part of this model.
- Lines.Update: a failing truncate or write in the middle of a rewrite is not modelled.
- DiskList.List: devices nested in a cycle, for which flatten does not end, are excluded; the order lessKName gives is a parameter, and the orders of siblings are not stated.
- Redact.RedactValue: works on values instead of rewriting maps in place, so the sharing of subtrees is not modelled.
- Admin.Files.CreateUser: documents whose `users:` is no list (or, in mcp-sudo.yaml, no mapping) are not followed into what the encoder makes of them, and nodes are values, so YAML aliases are not modelled.
- Admin.Files.DeleteUser: an error between the writes of the two files is not modelled.
- ReloadRace.RequestUsesOneGrantVersion: results that a request already in flight puts into the caches after a reload are not modelled; the code does not exclude them.
- Authenticate.OneAccountPerName: the run is of requests only; a reload or a token rotation in between replaces the pins by those on disk, and writing a pin to the file is not part of this model.
- Reload.ConfigChanges: a list that is absent and one that is empty are the same here; reflect.DeepEqual tells them apart, so the code may also report such a grant as changed. The removed `read_only` option, refused when a file is loaded, has no field.
- Reload.Daemon.ReloadConfig: the rendered text of a report is not modelled, only the list of changes behind it.
- Router.ReturnsItsOwnResponse: ids are the numbers of the calls, since nextID never repeats one.
- Resolver.ResolveGet: only the verb get; mutation verbs and describe search maps in random order or fall back to a guess, and add no relation to completion.
- Positional.MapPositionalArgs: toArray's decoding of a single word as JSON is not part of this model.
- Chmod.ParseMode: `strings.TrimSpace` on text that is not valid UTF-8 is not modelled.
- Processes, namespaces and credentials of workers, HTTP, TLS, D-Bus and DNS: foreign calls without visible logic; only which grant version a worker gets is modelled.
- YAML, JSON and regular-expression parsing, `filepath.Match`, `strings.ToLower` and SHA-256: libraries, taken as parameters or as parsed trees.
- Byte-range reads, file type detection, table rendering and size formatting: easy or presentation.
- files/list sorting: its reverse comparator is no strict order on equal keys.
- Rate limiting arithmetic: in a library; only which limiter a request asks is modelled.
