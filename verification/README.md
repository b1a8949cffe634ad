# Portix: a verified model

Portix is a desktop client for SSH, SFTP and RDP. Its two Rust crates, `portix_serv` and `portix_rdp`, hold
the protocol logic behind a Flutter interface. This project models the hard core of both in Dafny and proves
what it is meant to guarantee: over every run, every interleaving, every failure and every input, not over
examples. `dafny verify dfyconfig.toml` checks everything.

| file | what it models |
|---|---|
| `KeyboardInteractive.dfy` | keyboard-interactive login by replay, as a refinement of one direct dialogue (sections 3.2 to 3.4 of RFC 4256) |
| `SftpTransfer.dfy`, `Download.dfy`, `Upload.dfy` | resumable transfers through a part file |
| `RemoteTree.dfy`, `RemoteNames.dfy`, `RemoteWalk.dfy`, `RemoteRemove.dfy`, `RemoteCopy.dfy`, `RemoteDescent.dfy` | recursive removal and copy on a remote tree with symbolic links, from the path strings to the tree, and how deep a copy goes |
| `WireCodec.dfy` | the codec between Dart and Rust, with its recursive profile type |
| `RdpManager.dfy`, `SshManager.dfy`, `TunnelRegistry.dfy` | the concurrent managers, one step per lock region |
| `ExecWorker.dfy`, `JumpChain.dfy`, `HostKeys.dfy` | the retrying exec worker, jump-host chains and known hosts |
| `Socks5.dfy` | the SOCKS5 handshake of a dynamic tunnel (sections 3 to 6 of RFC 1928) |
| `FramePacking.dfy`, `RdpFile.dfy`, `RdpConnect.dfy` | framebuffer packing, `.rdp` files and the connect policy they feed |
| `Basics.dfy` | optional values, outcomes, text |

Code that changes state step by step is modelled as classes and methods with loops, each proved against a
function or predicate; the lemmas then speak about those. Interleaved code is a transition system whose runs
are sequences of states. Whatever the network, a server, a disk or a user may do is a nondeterministic choice
or a parameter, and a failed server call may still have been carried out. A constant `reliable` of a store, server or
socket says that its calls do not fail, and then the operations are shown to succeed.

## What turned out not to hold as documented

- Answering a keyboard-interactive round twice before reconnecting loses the earlier rounds (`AnswerTwice`).
  `ReplaysEarlierIff` gives the exact condition for the promise of `keyboard_interactive.rs:41-42`.
- A part file is trusted by its size, as the source admits. `FinishedIffPrefix` gives the exact condition under
  which a finished download is right. For an upload the stale part also takes the old file with it
  (`StalePart`). `FinishedFromIff` and `SafeFromIff` say the same of the state before the transfer, `SafeThroughoutIff`
  which sequences of attempts never lose both versions.
- An upload that was interrupted between removing the old file and renaming the part is safe to repeat only while
  the part's size can be read (`UnseenPart`, `OnlyPartSafeIff`, `SafeFromCleanStart`).
- `remove` says that links are removed themselves and never followed (`sftp_client.rs:185-186`). That holds of
  `remove_resolved`; `remove` resolves its argument first, so a link given to it stays and loses its
  target (`RemoveLink`). `Remove` says exactly when the entry itself goes.
- `copy` need not end. It makes the target before it lists the source and it follows links, so a link back up
  (`LinkToItsDirectory`), a link to the target (`LinkToTheTarget`) and a target inside the source (`TargetInside`) each
  take it down without end; the second needs no loop (`NoLoopYetEndless`). `EndlessIff` gives the exact condition for
  calls to every depth, and `Copy` shows that otherwise every run ends, in whatever order it lists.
- `copy` from or to a path that does not settle after one `remote_path` strays (`UnsettledStrays`).
- A name that ends in white space makes a copy that keeps clear of its target fail (`NamesAreClean`); nothing that
  existed changes.
- `verify_host_key` reads the file before it takes the lock. Two overlapping connects can make an unknown host
  gain two keys (`TwoKeysByInterleaving`). `FinishVerifyIff` says which step does it, and without such a step every
  interleaving keeps the property (`OverlapGainsAtMostOne`).
- `run_exec` reports success when a failing exit status comes after Eof (`LateStatusIsLost`, `FailedIff`).
- The `\@` spelling of a CyberArk login, which `license_cache.rs:21-22` attributes to `.rdp` files, is recognised in such
  a file only behind a domain (`RecognisedIff`, `EscapedLoginMissed`, `EscapedLoginWithDomain`).
- Frame packing overflows on a 16-bit word, and on none of eighteen bits or more (`NoWidthOverflowsIff`).

## Model

| member | source | states |
|---|---|---|
| `KeyboardInteractive.LoginStore.Login` | portix_serv/src/infrastructure/keyboard_interactive.rs:43-130 | For every deterministic server and every user strategy, connect / answer / connect sends on its last connect exactly the replies of the one direct dialogue; it is logged in, refused or lost exactly when the server then answers success, failure or not at all; connect k replays the first k user answers, there is one connect per user round and one more, nothing stays stored |
| `KeyboardInteractive.LoginStore.Authenticate` | portix_serv/src/infrastructure/keyboard_interactive.rs:68-130 | One login sends exactly the replay of the stored answers up to where the server decides or asks something new, and its outcome is the server answer: true exactly on success, false exactly on failure; afterwards the host has no stored answers, and a pending round exactly when the user is needed, with the user answers given so far |
| `KeyboardInteractive.LoginStore.Connect` | portix_serv/src/infrastructure/keyboard_interactive.rs:68-130 | A connect holding the user answers of a dialogue follows that dialogue, at least as far, and uses exactly those answers |
| `KeyboardInteractive.LoginStore.AnswerAndReconnect` | portix_serv/src/infrastructure/keyboard_interactive.rs:43-130 | Answering the pending round and connecting again gets strictly further along the same dialogue, with exactly one more user answer, the earlier ones first |
| `KeyboardInteractive.LoginStore.FirstConnect` | portix_serv/src/infrastructure/keyboard_interactive.rs:55-130 | A connect with nothing stored asks for the user at the first round that is neither empty nor the password prompt |
| `KeyboardInteractive.LoginStore.AnswerPending` | portix_serv/src/infrastructure/keyboard_interactive.rs:43-53 | The pending round goes, the stored answers become the rounds before it followed by this one, other hosts keep theirs; and the exact condition under which nothing earlier is lost |
| `KeyboardInteractive.ReplaysEarlierIff` | portix_serv/src/infrastructure/keyboard_interactive.rs:41-53 | The next connect takes the earlier rounds and this one exactly when a round is pending or nothing was answered before |
| `KeyboardInteractive.LoginStore.AnswerTwice` | portix_serv/src/infrastructure/keyboard_interactive.rs:43-53 | The failing sequence: a second answer before the next connect finds no pending round and drops every earlier answer, the first included |
| `KeyboardInteractive.LoginStore.TakeAnswers` | portix_serv/src/infrastructure/keyboard_interactive.rs:55-61 | Stored answers are used once: they are returned and both maps forget the host |
| `KeyboardInteractive.ReplayIsDialogue` | portix_serv/src/infrastructure/keyboard_interactive.rs:68-130 | A connect that replays the user answers of a dialogue only sends histories of that dialogue, and when it stops it has sent at least as much |
| `KeyboardInteractive.DialogueReplays` | portix_serv/src/infrastructure/keyboard_interactive.rs:68-130 | Every dialogue is a replay of its own user answers: password and empty rounds consume none |
| `KeyboardInteractive.ReplayAgrees` | portix_serv/src/infrastructure/keyboard_interactive.rs:68-130 | Two connects with the same stored answers never diverge |
| `KeyboardInteractive.DialogueUnique` | portix_serv/src/infrastructure/keyboard_interactive.rs:68-130 | The finished direct dialogue is unique, so the refinement determines every reply |
| `KeyboardInteractive.NextConnect` | portix_serv/src/infrastructure/keyboard_interactive.rs:68-130 | A stopped replay of a dialogue extends it without a further user answer |
| `KeyboardInteractive.AutoReplyIff` | portix_serv/src/infrastructure/keyboard_interactive.rs:61-122 | Which rounds the user never sees, over the prompts themselves: an empty round gets no answers; a lone hidden prompt that spells password in any mix of cases gets the saved password; every other round is the user own |
| `KeyboardInteractive.PasswordPromptIff` | portix_serv/src/infrastructure/keyboard_interactive.rs:61-65 | The password prompts are exactly the lone hidden prompts that spell password somewhere, letter by letter in either case |
| `KeyboardInteractive.DialogueReplies` | portix_serv/src/infrastructure/keyboard_interactive.rs:98-122 | What is sent in round k of a dialogue, said of its prompts |
| `WireCodec.ProfileRoundTrip` | portix_serv/src/frb_generated.rs:1738-1767 | For a profile with a jump chain of any depth, decoding its encoding followed by any bytes yields the profile and exactly those bytes |
| `WireCodec.JumpRoundTrip` | portix_serv/src/frb_generated.rs:1661-1672 | The same for the optional jump host, by recursion through the chain |
| `WireCodec.ProfileTailRoundTrip` | portix_serv/src/frb_generated.rs:2368-2383 | The same for the fields from the password on |
| `WireCodec.ProfileUnambiguous` | portix_serv/src/frb_generated.rs:2368-2383 | Encodings are injective and prefix-free: equal byte strings have equal profiles and equal rests |
| `WireCodec.ConnectCallRoundTrip` | portix_serv/src/frb_generated.rs:109-112 | The concatenated arguments of connect parse back, with nothing left over |
| `WireCodec.ConnectCallEnds` | portix_serv/src/frb_generated.rs:109-112 | Bytes after the last argument are refused |
| `WireCodec.IntegerLayout` | portix_serv/src/frb_generated.rs:2393-2412 | Byte i of an integer is its i-th digit to base 256 from the low end, or from the high end on a big-endian machine |
| `WireCodec.SmallLayouts` | portix_serv/src/frb_generated.rs:2162-2288 | A flag is the byte 1 or 0, a byte string its length in four bytes and then the bytes, an absent text the byte 0 |
| `WireCodec.ProfileLayout` | portix_serv/src/frb_generated.rs:2368-2383 | A profile is the encodings of its eleven fields, in the order of the record |
| `WireCodec.ThroughTheWire` | portix_serv/src/frb_generated.rs:2368-2383 | A profile written through the serializer and read through the cursor arrives unchanged, followed by the bytes after it |
| `WireCodec.BytesRoundTripIff` | portix_serv/src/frb_generated.rs:1591-1601 | A byte string survives exactly when its length fits in an i32; the cast wraps otherwise |
| `WireCodec.TextRoundTrip` | portix_serv/src/frb_generated.rs:1441-1447 | Text of such a length survives, UTF-8 check included |
| `Basics.EncodedIsValid` | portix_serv/src/frb_generated.rs:1441-1447 | Every text encodes to bytes that the UTF-8 check accepts (section 3 of RFC 3629) |
| `Basics.ValidIsEncoded` | portix_serv/src/frb_generated.rs:1441-1447 | And all bytes it accepts are the encoding of some text |
| `WireCodec.ListRoundTrip` | portix_serv/src/frb_generated.rs:1555-1615 | Any list whose items survive survives, followed by any bytes |
| `WireCodec.UintRoundTrip` | portix_serv/src/frb_generated.rs:1781-1807 | Unsigned integers of any width survive in either byte order |
| `WireCodec.I32RoundTrip` | portix_serv/src/frb_generated.rs:1541-1546 | Signed 32-bit integers survive |
| `WireCodec.I64RoundTrip` | portix_serv/src/frb_generated.rs:1548-1553 | Signed 64-bit integers survive |
| `WireCodec.OptTextRoundTrip` | portix_serv/src/frb_generated.rs:1617-1626 | Optional text survives |
| `WireCodec.RoundRoundTrip` | portix_serv/src/frb_generated.rs:1461-1473 | A prompt round with its list of prompts survives |
| `WireCodec.ForwardListRoundTrip` | portix_serv/src/frb_generated.rs:1579-1589 | A list of tunnels survives |
| `WireCodec.EntryListRoundTrip` | portix_serv/src/frb_generated.rs:1603-1615 | A directory listing survives |
| `WireCodec.Serializer.WriteBytes` | portix_serv/src/frb_generated.rs:2260-2268 | The loop appends the length and every byte in order |
| `WireCodec.Serializer.WriteList` | portix_serv/src/frb_generated.rs:2230-2278 | The list loop appends the length and the items encodings in order |
| `WireCodec.Serializer.WriteProfile` | portix_serv/src/frb_generated.rs:2368-2383 | The buffer grows by the profile encoding |
| `WireCodec.Deserializer.ReadBytes` | portix_serv/src/frb_generated.rs:1591-1601 | The loop of single-byte reads is the byte-string parser, panics included |
| `WireCodec.Deserializer.ReadList` | portix_serv/src/frb_generated.rs:1555-1615 | The push loop is the list parser, panics included |
| `WireCodec.Deserializer.ReadProfile` | portix_serv/src/frb_generated.rs:1738-1767 | The cursor reads are the profile parser, for every input; recursion ends because every read consumes |
| `SftpTransfer.FileStore.CopyWithProgress` | portix_serv/src/infrastructure/sftp_client.rs:356-380 | Under any read lengths: only the part grows, in every intermediate state, by a prefix of the rest of the source; finished means all of it, cancelled means exactly the last reported count; on a store whose calls do not fail it finishes or is cancelled |
| `SftpTransfer.ResumeOffset` | portix_serv/src/infrastructure/sftp_client.rs:352-354 | A part that fits the source is resumed at its end, and nothing else is: never past the end of the source |
| `Download.Download` | portix_serv/src/infrastructure/sftp_client.rs:263-297 | One attempt under any failures is an Attempt: target untouched unless finished, part extended from where it resumed, everything else unchanged; with no failing call it finishes or is cancelled |
| `Download.AnyAttempts` | portix_serv/src/infrastructure/sftp_client.rs:263-297 | Over any sequence of attempts on an unchanging file the part stays a prefix of it or longer than it, the target is untouched until one finishes, a finished one leaves the source and no part, a cancelled one leaves a part as long as its last report |
| `Download.FinishedIffPrefix` | portix_serv/src/infrastructure/sftp_client.rs:346-354 | A finished download equals the source exactly when the bytes it resumed from were the source own first bytes |
| `Download.FinishedFromIff` | portix_serv/src/infrastructure/sftp_client.rs:263-297 | Every download that finishes from a given disk equals the source exactly when the part there is absent, longer than the source, or its first bytes |
| `Download.StalePart` | portix_serv/src/infrastructure/sftp_client.rs:346-354 | Failing input: a part of an older version ends up in the target |
| `Download.AttemptKeepsResumable` | portix_serv/src/infrastructure/sftp_client.rs:263-297 | Each attempt keeps the part resumable, and then finishing means the exact source |
| `Download.OthersUntouched` | portix_serv/src/infrastructure/sftp_client.rs:263-297 | No other file changes over any sequence of attempts, and the target only when one finishes |
| `Upload.Server.Upload` | portix_serv/src/infrastructure/sftp_client.rs:302-338 | One attempt with any part it finds, under any failures: every state it goes through fills the part from where it resumed or replaces the target by the filled part; success leaves the filled part at the target, the replaced file mode and no part; with no failing call it succeeds or is cancelled |
| `Upload.MergedIffSound` | portix_serv/src/infrastructure/sftp_client.rs:346-354 | A filled part is the source exactly when the bytes it resumed from were the source own first bytes |
| `Upload.SafeFromIff` | portix_serv/src/infrastructure/sftp_client.rs:302-338 | With a file to replace, every attempt from a given store keeps the old file or the whole new one in every state exactly when the part there is absent, longer than the source, or its first bytes |
| `Upload.OnlyPartSafeIff` | portix_serv/src/infrastructure/sftp_client.rs:302-338 | With the old file gone and the new one whole in the part, no attempt is sure to keep it, unless the source is empty |
| `Upload.SafeIffCareful` | portix_serv/src/infrastructure/sftp_client.rs:302-338 | From a secure start, every state of an attempt still has the old file or the whole new one exactly when it removed the old file only after a sound resume, and did not reopen an unseen part when only the part was left |
| `Upload.SafeThroughoutIff` | portix_serv/src/infrastructure/sftp_client.rs:302-338 | The same over any sequence of attempts that starts by replacing a file: all states safe exactly when every attempt was careful |
| `Upload.SoundThroughout` | portix_serv/src/infrastructure/sftp_client.rs:302-338 | From a part that this source can have left (absent, a prefix, or longer), every attempt of any sequence resumes soundly |
| `Upload.SafeFromCleanStart` | portix_serv/src/infrastructure/sftp_client.rs:302-338 | From such a part, a sequence of attempts is safe throughout exactly when none reopened the part unseen once only the part was left |
| `Upload.StalePart` | portix_serv/src/infrastructure/sftp_client.rs:346-354 | Failing input: a part of an older version, after whose upload removed the old file neither version is there |
| `Upload.UnseenPart` | portix_serv/src/infrastructure/sftp_client.rs:308-320 | Failing input: the old file is gone, the part is whole but its size goes unseen, and it is emptied |
| `Upload.AnyAttempts` | portix_serv/src/infrastructure/sftp_client.rs:302-338 | Over any sequence of attempts that starts by replacing a file, its permissions survive every failure; an attempt that succeeds ends with those permissions and no part, and with the whole file exactly when it resumed soundly |
| `Upload.CleanStart` | portix_serv/src/infrastructure/sftp_client.rs:302-338 | When the first part is absent, longer than the source or its first bytes, every later attempt that succeeds ends with the full content, the replaced file permissions and no part |
| `Upload.Server.FillPart` | portix_serv/src/infrastructure/sftp_client.rs:308-329 | Whatever the part held, only the part changes, from what it held to that plus the rest of the source |
| `Upload.Server.ReplaceTarget` | portix_serv/src/infrastructure/sftp_client.rs:331-337 | From a filled part on, its content is always in the part or at the target; the replaced file mode is kept; success removes the part; and whether the old file was removed |
| `Upload.Server.Rename` | portix_serv/src/infrastructure/sftp_client.rs:337-337 | A rename onto an existing file changes nothing; otherwise a failed reply may hide a finished rename |
| `RemoteRemove.Server.RemoveResolved` | portix_serv/src/infrastructure/sftp_client.rs:197-225 | Terminates on every finite tree; success deletes exactly the nodes at or below the path; on failure only such nodes are gone and nothing changed; links are leaves; with no failing call a path that exists is removed |
| `RemoteRemove.Server.Remove` | portix_serv/src/infrastructure/sftp_client.rs:187-195 | The argument is resolved first, through linked directories and .. too: success removes what it leads to, and the entry itself goes exactly when it lies at or below that; a home spelling removes what the login directory leads to, or is refused where that is the root |
| `RemoteRemove.Server.RemoveLink` | portix_serv/src/infrastructure/sftp_client.rs:185-195 | Failing input: a link given to the public call is still there when it succeeds, and what it led to is gone |
| `RemoteRemove.Server.RemoveEntries` | portix_serv/src/infrastructure/sftp_client.rs:209-220 | The loop over a listing in any order empties every entry, and touches nothing outside |
| `RemoteRemove.NothingLeft` | portix_serv/src/infrastructure/sftp_client.rs:209-224 | Once all entries are gone only the directory is left, and removing it completes the exact deletion |
| `RemoteCopy.Server.Copy` | portix_serv/src/infrastructure/sftp_client.rs:229-252 | On any tree, for any names, however long it goes on: no node that existed changes and everything new lies under the target. Success with the target outside the source is a copy in shape, content and reported permission bits exactly when every entry led somewhere, and no name ended in white space. In whatever order it lists, it ends when the source neither loops nor leads into the target under construction; clear of the target, within as many levels as there are nodes. With no failing call, no dangling link, no name ending in white space and a free target clear of the source it does not fail |
| `RemoteCopy.Server.CopyNode` | portix_serv/src/infrastructure/sftp_client.rs:229-252 | One call of the recursion, any number of levels down: the same for the entry and everything below it |
| `RemoteCopy.Server.FillDir` | portix_serv/src/infrastructure/sftp_client.rs:233-241 | The same for a directory that has been made exclusively: filled in any order, then given its mode |
| `RemoteCopy.Server.CopyEntries` | portix_serv/src/infrastructure/sftp_client.rs:234-239 | The loop over a listing copies every entry and leaves nothing else below the target |
| `RemoteCopy.Server.CopyEntry` | portix_serv/src/infrastructure/sftp_client.rs:235-238 | One entry: both paths joined and passed through remote_path again; a call that succeeds made a node of its own |
| `RemoteCopy.Server.CopyFile` | portix_serv/src/infrastructure/sftp_client.rs:242-251 | The same for a file: created exclusively, written in full or reported as failed |
| `RemoteCopy.Server.KeepMode` | portix_serv/src/infrastructure/sftp_client.rs:254-259 | Reported bits are set, and nothing else changes |
| `RemoteCopy.NamesAreClean` | portix_serv/src/infrastructure/sftp_client.rs:230-237 | If every call of a listing succeeded no name ended in white space: sent without it, such a name leads nowhere or to a node that another call makes |
| `RemoteCopy.WhatSuccessMeans` | portix_serv/src/infrastructure/sftp_client.rs:229-252 | A success with the target outside the source is a copy exactly when no link of the source led nowhere |
| `RemoteCopy.WalkFrame` | portix_serv/src/infrastructure/sftp_client.rs:229-241 | Where the paths of the source lead does not change while a target apart from it is filled |
| `RemoteCopy.DirCopied` | portix_serv/src/infrastructure/sftp_client.rs:232-241 | A directory whose entries are copied, with nothing else below the target, is copied |
| `RemoteDescent.EndlessIff` | portix_serv/src/infrastructure/sftp_client.rs:229-241 | Calls go down to every depth exactly when a path of the source loops or leads to a target directory that the same run has made |
| `RemoteDescent.UnfinishedIsRunInto` | portix_serv/src/infrastructure/sftp_client.rs:229-241 | Whatever was copied before it, a call that leads to an unfinished directory of the target shows that the run straight down to it does |
| `RemoteDescent.LoopIsEndless` | portix_serv/src/infrastructure/sftp_client.rs:231-238 | Any source in which a path loops is copied down to every depth |
| `RemoteDescent.OwnTargetIsEndless` | portix_serv/src/infrastructure/sftp_client.rs:233-238 | Any run that leads to a directory it has made goes down to every depth: the copy copies itself |
| `RemoteCopy.ApartNeverRunsInto` | portix_serv/src/infrastructure/sftp_client.rs:229-241 | A source that keeps clear of the target never leads into it |
| `RemoteCopy.LedBeside` | portix_serv/src/infrastructure/sftp_client.rs:231-238 | In a run that ends, an entry of the source leads to a place of the source or to a finished part of the target, never to one under construction |
| `RemoteDescent.LinkToItsDirectory` | portix_serv/src/infrastructure/sftp_client.rs:231-238 | Failing input: a link to the directory it lies in is copied down to every depth |
| `RemoteDescent.LinkToTheTarget` | portix_serv/src/infrastructure/sftp_client.rs:233-238 | Failing input: so is a link to the place where the copy will be, since the target is made before the source is listed |
| `RemoteDescent.TargetInside` | portix_serv/src/infrastructure/sftp_client.rs:233-238 | Failing input: so is a target inside the source |
| `RemoteDescent.NoLoopYetEndless` | portix_serv/src/infrastructure/sftp_client.rs:233-238 | A concrete tree without any loop whose copy goes down to every depth |
| `RemoteWalk.FiniteIffNoLoop` | portix_serv/src/infrastructure/sftp_client.rs:229-241 | Walks by name, links followed, are shorter than the number of nodes exactly when none comes by the same place twice |
| `RemoteWalk.PlainTreesHaveNoLoop` | portix_serv/src/infrastructure/sftp_client.rs:229-241 | A tree without links to directories never loops |
| `RemoteWalk.WalkStays` | portix_serv/src/infrastructure/sftp_client.rs:229-241 | Whatever a path led to it still leads to when nodes are added |
| `RemoteNames.NormalIff` | portix_serv/src/infrastructure/sftp_client.rs:30-36 | remote_path leaves a string alone exactly when it is not empty, not home-relative and has no white space at its ends |
| `RemoteNames.HomeLeadsHome` | portix_serv/src/infrastructure/sftp_client.rs:28-36 | Nothing, or a tilde, with any white space around it, leads to the login directory, whatever that is |
| `RemoteNames.HomeRelative` | portix_serv/src/infrastructure/sftp_client.rs:28-36 | What follows ~/ is read from the login directory |
| `RemoteCopy.HomeIsItsPlace` | portix_serv/src/infrastructure/sftp_client.rs:28-36 | So the place of such a path, for a copy, is what the login directory leads to |
| `RemoteCopy.SettledPlace` | portix_serv/src/infrastructure/sftp_client.rs:28-36 | And the place of a path that remote_path leaves alone is where its names lead |
| `RemoteRemove.DotDotIsUp` | portix_serv/src/infrastructure/sftp_client.rs:187-195 | Resolving .. goes one level up from where the path before it led, links followed, and not above the root |
| `RemoteNames.SentIsJoined` | portix_serv/src/infrastructure/sftp_client.rs:230-237 | The path sent for an entry is the joined path without the white space at the end of the name, and remote_path leaves it alone from then on |
| `RemoteNames.LocateJoin` | portix_serv/src/infrastructure/sftp_client.rs:51-57 | A server reads a joined path as the directory names followed by the name, with or without a trailing slash |
| `RemoteNames.PlainIsLawful` | portix_serv/src/infrastructure/sftp_client.rs:30-57 | So a server that reads names between slashes reads the path of an entry as its directory names and its own, less white space at the end |
| `RemoteNames.UnsettledStrays` | portix_serv/src/infrastructure/sftp_client.rs:30-36 | Failing input: entries of a path such as ~/~/x, which does not settle after one remote_path, are looked for in another directory |
| `RemoteTree.FollowFrame` | portix_serv/src/infrastructure/sftp_client.rs:229-241 | Filling the target does not change where links lead that never come by it |
| `RdpManager.NoRuntimeEscapes` | portix_rdp/src/application/session_manager.rs:88-280 | Under every interleaving, a running runtime whose connect has inserted it is in sessions, or is cancelled, or is about to be cancelled by the call that took it out |
| `RdpManager.ConnectReturnsOwnProfile` | portix_rdp/src/application/session_manager.rs:88-236 | Whatever connect returns, new or existing, is a session of the requested profile |
| `RdpManager.LiveSessionIsReused` | portix_rdp/src/application/session_manager.rs:101-109 | Over every run, a connect whose lookup finds the indexed session in the map and still running returns that session and starts nothing |
| `RdpManager.SpawnOnlyAfterMiss` | portix_rdp/src/application/session_manager.rs:93-122 | Over every run, a connect starts a runtime only after it found no index entry, no session for it, or one that was closed, and then both its entries had been taken out |
| `RdpManager.ConnectedWasObtained` | portix_rdp/src/application/session_manager.rs:101-236 | Over every run, whatever connect returned it had found alive in the map, or had put into both maps itself |
| `RdpManager.TasksStartBySpawn` | portix_rdp/src/application/session_manager.rs:161-220 | No runtime starts in any other way, and it starts uncancelled with an empty channel |
| `RdpManager.DisconnectDoesAll` | portix_rdp/src/application/session_manager.rs:239-256 | Over every run, when a disconnect that found its session returns, the session has left the map, its runtime is cancelled and the index entry of its profile was taken out after that |
| `RdpManager.DisconnectAllDoesAll` | portix_rdp/src/application/session_manager.rs:264-280 | Over every run, when disconnect_all returns, every session it found is cancelled and both maps were emptied |
| `RdpManager.GoneHasLeft` | portix_rdp/src/application/session_manager.rs:215-217 | Over every run, a runtime that is gone has taken out its session and then the index entry of its profile |
| `RdpManager.OtherEntriesStay` | portix_rdp/src/application/session_manager.rs:88-280 | No call and no task of another profile changes the index entry of a profile, except the clearing of all |
| `RdpManager.OtherSessionsStay` | portix_rdp/src/application/session_manager.rs:88-280 | No call and no task of another session changes the entry of a session, except the draining of all |
| `RdpManager.OnlyItsOwnIsCancelled` | portix_rdp/src/application/session_manager.rs:239-280 | A runtime is cancelled only by a disconnect of its own session or by disconnect_all |
| `RdpManager.IndexUnderItsLock` | portix_rdp/src/application/session_manager.rs:93-280 | Whoever does not own the index lock neither reads nor changes the index: with any other index the step is the same |
| `RdpManager.SessionsUnderItsLock` | portix_rdp/src/application/session_manager.rs:101-280 | And the same of the session map and its lock |
| `RdpManager.LocksAreKept` | portix_rdp/src/application/session_manager.rs:93-280 | Over every run a lock is taken only while it is free, kept until its owner has done its region, and then free again |
| `RdpManager.ChannelsFit` | portix_rdp/src/application/session_manager.rs:122-122 | No command channel ever holds more than its 32 slots |
| `RdpManager.InvariantHolds` | portix_rdp/src/application/session_manager.rs:88-280 | The inductive invariant behind both, in every reachable state |
| `RdpManager.StepKeeps` | portix_rdp/src/application/session_manager.rs:88-360 | Every lock region of every call and task keeps the invariant |
| `RdpManager.NoCyclicWait` | portix_rdp/src/application/session_manager.rs:93-360 | Chains of waits, on locks and on full channels, have at most three actors and never close |
| `RdpManager.WaitsGoDown` | portix_rdp/src/application/session_manager.rs:161-220 | Whoever holds sessions while waiting for a channel slot waits for a task that drops its receiver before it asks for that lock |
| `RdpManager.NeverBothLocks` | portix_rdp/src/application/session_manager.rs:93-280 | No actor ever holds both mutexes |
| `RdpManager.NoDeadlock` | portix_rdp/src/application/session_manager.rs:88-360 | In every reachable state, whoever is neither finished nor a runtime at rest heads a chain of waits whose last actor can move now, and not just by ending a runtime |
| `RdpManager.StepOrWait` | portix_rdp/src/application/session_manager.rs:88-360 | Whoever is not finished can take a step or waits for a particular other actor |
| `SshManager.TraceIsGood` | portix_serv/src/application/session_manager.rs:61-117 | In every interleaving a session trace is Connecting, optionally Connected, then Disconnected or an error event and Error; Disconnected only after Connected; the final status only after removal from the map |
| `SshManager.EndingHasItsCause` | portix_serv/src/infrastructure/ssh_client.rs:181-229 | Over every run, a session that reported its final status ended in Disconnected exactly when the step that took its receiver away received a Disconnect or was the server closing, and in Error exactly when it was a failure |
| `SshManager.WhyItStopped` | portix_serv/src/infrastructure/ssh_client.rs:181-229 | The same of every session that has stopped, before it has reported anything |
| `SshManager.LookupIff` | portix_serv/src/application/session_manager.rs:180-187 | A lookup finds exactly the listed sessions: any other gets SessionNotFound |
| `SshManager.AnswerHasItsCause` | portix_serv/src/application/session_manager.rs:164-178 | Whatever a caller was answered, some step gave it that answer: SessionNotFound by a lookup that missed, a send after the runtime ended or a dropped queue, a reply by the worker that held its request |
| `SshManager.AnsweredInOrder` | portix_serv/src/infrastructure/ssh_client.rs:183-195 | Over every run, requests are answered in the order in which they were sent, without a gap |
| `SshManager.SessionGoesOn` | portix_serv/src/infrastructure/ssh_client.rs:155-230 | In every reachable state, a session that has not reported its final status can take its next step, or waits for a worker that can |
| `SshManager.ReceiveTakesFirst` | portix_serv/src/infrastructure/ssh_client.rs:183-202 | A runtime takes the commands off its channel one by one, the first first, and stops exactly at a Disconnect |
| `SshManager.SlotsAreUsed` | portix_serv/src/application/session_manager.rs:61-65 | A command can be sent exactly while one of the 512 slots is free, a request passed on exactly while one of the 64 is |
| `SshManager.AfterTheFinalStatus` | portix_serv/src/application/session_manager.rs:99-187 | After the final status nothing more is reported for the session, and every later lookup gets SessionNotFound |
| `SshManager.NoCallerLeftWaiting` | portix_serv/src/application/session_manager.rs:164-178 | Once the runtime and its worker have ended, no exec caller of the session waits for an answer |
| `SshManager.InvariantHolds` | portix_serv/src/application/session_manager.rs:61-187 | Traces, the session map and the place of every waiting request agree in every reachable state |
| `SshManager.StepKeeps` | portix_serv/src/infrastructure/ssh_client.rs:155-230 | Every step of connects, runtimes, workers and callers keeps that invariant |
| `SshManager.SessionAfterFits` | portix_serv/src/infrastructure/ssh_client.rs:155-230 | One step of a session lengthens its expected trace by exactly the event it reports |
| `SshManager.RequestMoves` | portix_serv/src/infrastructure/ssh_client.rs:177-201 | A waiting request moves from queue to hand to worker, or is answered; it is never lost |
| `SshManager.WorkerGoesOn` | portix_serv/src/infrastructure/ssh_client.rs:333-412 | After the runtime ended, the worker can always answer, take the next request or end |
| `SshManager.WorkerEndsAfter` | portix_serv/src/infrastructure/ssh_client.rs:333-412 | And it takes at most two steps for every queued request and two more, and has ended exactly when it has taken them all |
| `ExecWorker.Worker.Work` | portix_serv/src/infrastructure/ssh_client.rs:333-412 | Requests are answered in arrival order, exactly once each; the log is the first connect and then the work and the answer of each request in turn; each costs at most three connects and two executions; the answer is Ok with an output exactly when the last event of its work ran to that output, a command failure exactly when that exited so, LostAgain exactly when it broke, after another broken one, and NoConnection exactly when it was a failed connect; a command whose execution did not break is never run again; every execution is on the last connection handed out |
| `ExecWorker.Worker.Serve` | portix_serv/src/infrastructure/ssh_client.rs:345-388 | One request: connect if there is no connection, at most twice; then run it, and answer what the run did |
| `ExecWorker.Worker.RunWithRetry` | portix_serv/src/infrastructure/ssh_client.rs:366-384 | One run that did not break is the answer; a broken one is followed by a connect, and if that succeeds by exactly one more run on the new connection, whose outcome is the answer |
| `ExecWorker.ServedIsHandled` | portix_serv/src/infrastructure/ssh_client.rs:345-391 | What that says of the events alone: the answer and the last event determine each other, a broken first run is followed by a connect, the connection is lost exactly when the answer is NoConnection |
| `ExecWorker.Worker.EnsureConnected` | portix_serv/src/infrastructure/ssh_client.rs:351-364 | At most two connects, and a session only from a connect that succeeded |
| `ExecWorker.RunExec` | portix_serv/src/infrastructure/ssh_client.rs:255-300 | The message loop computes the output and status of what came before the first Eof or Close |
| `ExecWorker.OutputIsData` | portix_serv/src/infrastructure/ssh_client.rs:269-274 | The output of the messages seen is their data, joined in order |
| `ExecWorker.FailedIff` | portix_serv/src/infrastructure/ssh_client.rs:270-298 | A command counts as failed exactly when the last exit status before the first Eof or Close is not zero |
| `ExecWorker.NothingUnread` | portix_serv/src/infrastructure/ssh_client.rs:270-298 | When no status follows the first Eof or Close the report is that of the whole stream |
| `ExecWorker.LateStatusIsLost` | portix_serv/src/infrastructure/ssh_client.rs:275-298 | Failing input: a failure whose status follows Eof is reported as a success |
| `HostKeys.GainsAtMostOne` | portix_serv/src/infrastructure/host_keys.rs:23-118 | Over every run a host with recorded keys never gains one; any other gains at most one, which is the last key refused before the call that confirmed its fingerprint |
| `HostKeys.AcceptedStaysAccepted` | portix_serv/src/infrastructure/host_keys.rs:23-118 | A key accepted once stays accepted |
| `HostKeys.InvariantHolds` | portix_serv/src/infrastructure/host_keys.rs:67-118 | A pending unknown key implies that the host has no recorded key |
| `HostKeys.PendingIsLastRefused` | portix_serv/src/infrastructure/host_keys.rs:67-84 | Whatever is pending is the last key refused for the host, with its own fingerprint |
| `HostKeys.OverlapGainsAtMostOne` | portix_serv/src/infrastructure/host_keys.rs:23-118 | Over every interleaving in which no verify finishes out of date: a host with recorded keys never gains one, any other at most one, the key of the last verify finished before its fingerprint was confirmed |
| `HostKeys.OverlapStaysAccepted` | portix_serv/src/infrastructure/host_keys.rs:23-118 | A key accepted once stays accepted over every interleaving whatsoever |
| `HostKeys.FinishVerifyIff` | portix_serv/src/infrastructure/host_keys.rs:23-47 | Finishing a verify keeps the invariant exactly when what it read still holds, and a confirmation then adds to a host that has keys exactly when it does not |
| `HostKeys.AloneIsTimely` | portix_serv/src/infrastructure/host_keys.rs:23-47 | A verify that nothing interrupts, whether it accepts, refuses or cannot read the file, is timely and is the verify of the sequential runs |
| `HostKeys.TwoKeysByInterleaving` | portix_serv/src/infrastructure/host_keys.rs:23-118 | A run of two overlapping connects after which an unknown host has two recorded keys |
| `HostKeys.KnownHosts.VerifyHostKey` | portix_serv/src/infrastructure/host_keys.rs:23-47 | Accepted exactly when recorded; unknown exactly when nothing is recorded; changed names the first recorded line; a refused key becomes pending |
| `HostKeys.KnownHosts.TrustPending` | portix_serv/src/infrastructure/host_keys.rs:98-118 | Records the pending key exactly when it is of an unknown host, its fingerprint is the confirmed one and the file can be written |
| `HostKeys.KnownHosts.ForgetPending` | portix_serv/src/infrastructure/host_keys.rs:82-84 | Only that host pending key goes |
| `JumpChain.Connect` | portix_serv/src/infrastructure/ssh_client.rs:441-492 | Terminates on the chain; afterwards the pending keys of the chain are exactly the one hop this attempt refused as unknown or changed, or none; other hosts and recorded keys are as before |
| `JumpChain.ForgetsFirst` | portix_serv/src/infrastructure/ssh_client.rs:441-452 | Every hop pending key is cleared, target first, before any hop key is checked, outermost first |
| `TunnelRegistry.ListedExactly` | portix_serv/src/infrastructure/port_forward.rs:147-161 | In every interleaving a tunnel is listed exactly from its registration until it is stopped or its task removes it |
| `TunnelRegistry.ListedBySteps` | portix_serv/src/infrastructure/port_forward.rs:147-161 | Told by the actions alone: a tunnel is active exactly when it was inserted and has been neither stopped nor removed by its task since |
| `TunnelRegistry.StoppedTask` | portix_serv/src/infrastructure/port_forward.rs:292-298 | A running task ends by itself or is aborted by a stop; an ended one only removes its entry |
| `TunnelRegistry.NeverAgain` | portix_serv/src/infrastructure/port_forward.rs:294-308 | Once off the list it never comes back |
| `TunnelRegistry.InvariantHolds` | portix_serv/src/infrastructure/port_forward.rs:147-161 | The inductive invariant behind both |
| `TunnelRegistry.DeadTunnelStays` | portix_serv/src/infrastructure/port_forward.rs:153-158 | Such a tunnel stays listed until it is stopped |
| `TunnelRegistry.WithoutTheLock` | portix_serv/src/infrastructure/port_forward.rs:153-158 | Without the lock across spawn there is a run that lists a tunnel whose task is gone |
| `Socks5.HandshakeParses` | portix_serv/src/infrastructure/port_forward.rs:236-285 | A greeting offering no authentication, a CONNECT request and any payload parse to the host and port with the payload unread |
| `Socks5.TargetMeansHandshake` | portix_serv/src/infrastructure/port_forward.rs:236-285 | Conversely, any stream that yields a target is such a greeting and request for it, followed by the unread rest |
| `Socks5.Socket.Socks5Request` | portix_serv/src/infrastructure/port_forward.rs:236-285 | Under every chunking the reads and writes are those of the parser; failures write a first part of its replies |
| `Socks5.Socket.ReadExact` | portix_serv/src/infrastructure/port_forward.rs:239-240 | Any chunking yields the next n bytes, or the end of the stream |
| `Socks5.Socket.ForwardConnection` | portix_serv/src/infrastructure/port_forward.rs:187-218 | For every input the bytes written are (a first part of) an allowed reply sequence, and success is written only after the channel opened; on a socket that does not fail, the target is the parsed one, a refused channel gets code 5 and a refused request exactly the reply of the parser |
| `Socks5.VerdictReplies` | portix_serv/src/infrastructure/port_forward.rs:244-281 | Everything the parser replies to any input is an allowed sequence that claims no success |
| `Socks5.RefusalCodes` | portix_serv/src/infrastructure/port_forward.rs:252-290 | Which refusal gets which code, byte for byte: 7 for a command other than CONNECT, 8 for an unknown address type |
| `Socks5.GreetingVerdicts` | portix_serv/src/infrastructure/port_forward.rs:239-250 | Which greetings are answered with nothing and which with no acceptable method |
| `Socks5.SuccessMeansOpened` | portix_serv/src/infrastructure/port_forward.rs:211-215 | A client that reads the success code has an opened channel |
| `Socks5.AddressInverts` | portix_serv/src/infrastructure/port_forward.rs:258-281 | Every parsed address is the encoding it was read from |
| `FramePacking.PackFrame` | portix_rdp/src/infrastructure/rdp_client.rs:1013-1050 | On any word size: a frame is emitted exactly when the guards hold; then byte k of pixel (r, c) is source byte r*stride+4c+k, and 255 for the alpha byte; nothing overflows but the width times four, and that exactly when it exceeds the word |
| `FramePacking.NoWidthOverflowsIff` | portix_rdp/src/infrastructure/rdp_client.rs:1024-1024 | No 16-bit width overflows exactly on words of at least eighteen bits |
| `FramePacking.CopyRows` | portix_rdp/src/infrastructure/rdp_client.rs:1038-1046 | Row r of the output is row r of the source without its padding, for every row |
| `FramePacking.MakeOpaque` | portix_rdp/src/infrastructure/rdp_client.rs:1048-1050 | Every fourth byte becomes 255 and no other changes |
| `FramePacking.RowInside` | portix_rdp/src/infrastructure/rdp_client.rs:1040-1045 | A row ends within the rows: the bound behind every index |
| `RdpFile.PrintedFileParses` | portix_rdp/src/domain/profile.rs:310-338 | Parsing any printed list of key:type:value lines, values with colons included, yields the last-wins map |
| `RdpFile.PrintedLineParses` | portix_rdp/src/domain/profile.rs:313-335 | A printed line parses to its key and its value, whatever colons the value has |
| `RdpFile.LastWinsMeans` | portix_rdp/src/domain/profile.rs:334-334 | The last line of a key decides its value |
| `RdpFile.LastWinsKeys` | portix_rdp/src/domain/profile.rs:310-338 | Exactly the printed keys are in the map |
| `RdpFile.ParseRdpLines` | portix_rdp/src/domain/profile.rs:310-338 | The loop computes the map collected line by line |
| `RdpFile.PrintedProfileParses` | portix_rdp/src/domain/profile.rs:169-308 | A printed profile parses back to itself, except that a PSM shell turns CredSSP on |
| `RdpFile.Defaults` | portix_rdp/src/domain/profile.rs:176-250 | What a profile gets for every setting its file leaves out |
| `RdpFile.NumbersOfAFile` | portix_rdp/src/domain/profile.rs:184-233 | Flags are on exactly for the number they stand for; an unreadable number gives the default |
| `RdpFile.OutOfRange` | portix_rdp/src/domain/profile.rs:184-197 | A number above the range of its type is unreadable |
| `RdpFile.NegativeI32Parses` | portix_rdp/src/domain/profile.rs:194-197 | Every negative number of the signed type parses, the lowest included |
| `RdpFile.UnsignedHasNoMinus` | portix_rdp/src/domain/profile.rs:184-192 | An unsigned number has no minus sign, not even before a zero |
| `RdpFile.PsmIff` | portix_rdp/src/domain/profile.rs:199-202 | A shell counts as PSM exactly when it spells psm somewhere, letter by letter in either case |
| `RdpFile.LineWithoutColon` | portix_rdp/src/domain/profile.rs:320-322 | A line without a colon is ignored |
| `RdpFile.LineWithoutType` | portix_rdp/src/domain/profile.rs:326-334 | A line with one colon has everything after it for a value |
| `RdpFile.OpenEndedFileParses` | portix_rdp/src/domain/profile.rs:310-338 | A file whose last line has no line feed parses like one that has |
| `RdpFile.AddressCarriesPort` | portix_rdp/src/domain/profile.rs:232-250 | Without a port setting, host:port in the address gives both, and a bare host the standard port |
| `RdpFile.DecimalParses` | portix_rdp/src/domain/profile.rs:186-199 | Decimal numbers parse back |
| `RdpConnect.Run` | portix_rdp/src/infrastructure/rdp_client.rs:216-320 | At most two attempts, all with the profile CredSSP setting; a second exactly after a licence failure, with stub cache and bypass; none when cancelled; the result is the last outcome, reworded for an NLA failure that was not retried |
| `RdpConnect.TryConnect` | portix_rdp/src/infrastructure/rdp_client.rs:653-935 | The licence-repair finalizer is reached only with bypass and without CredSSP |
| `RdpConnect.ConnectFromFile` | portix_rdp/src/domain/profile.rs:201-223 | For a file whose alternate shell contains psm every attempt uses CredSSP and the licence-repair finalizer is never reached |
| `RdpConnect.RecognisedIff` | portix_rdp/src/infrastructure/license_cache.rs:23-29 | A login of a file is recognised exactly when it has no backslash and starts with psm@ or pam@, or the trimmed text after its first backslash starts with one of the four spellings |
| `RdpConnect.PamLogins` | portix_rdp/src/infrastructure/license_cache.rs:21-29 | A login that starts with one of the four prefixes, in any mix of cases, is recognised |
| `RdpConnect.LicenceErrorIff` | portix_rdp/src/infrastructure/license_cache.rs:8-19 | A message is a licence error exactly when one of the seven marks stands somewhere in it |
| `RdpConnect.EscapedLoginMissed` | portix_rdp/src/infrastructure/license_cache.rs:23-29 | So a login that itself starts with psm\@ or pam\@ is never recognised: the parser takes the prefix for a domain |
| `RdpConnect.EscapedLoginWithDomain` | portix_rdp/src/infrastructure/license_cache.rs:23-29 | And with a domain in front of it it always is |

## Left out

- russh, russh-sftp, IronRDP, tokio and serde: each call is a nondeterministic step with the effect the code relies on.
- TLS, key exchange, signatures and SHA-256: a fingerprint is any function of the key. The text syntax of known_hosts is a map from host and port to recorded keys.
- The dispatch functions and `IntoDart` impls of `portix_serv/src/frb_generated.rs` other than the arguments of `connect`, and all of `portix_rdp/src/frb_generated.rs`: the same codec with easier types.
- Text formatting of IP addresses: an address stays the bytes it was parsed from.
- Lower-casing outside ASCII: a non-ASCII upper-case letter in an `.rdp` key stays as it is in the model. No such letter lower-cases to one of the letters of `psm`, `pam` or `password`.
- `clipboard.rs`, the file licence cache, the HID table, `validate`, terminal sizes, platform detection and the PowerShell and system commands: finite tables or single branches.
- Timeouts, keepalives and sleeps, other than as a failure; panics of spawned tasks.
- Flutter and Dart code, native runners and packaging.
- RemoteCopy.Server.Copy: the caller's paths settle after one `remote_path` (not `~/~/x`, `~/ x` or `~/`; see RemoteNames.UnsettledStrays). A run that need not end is followed to a given depth, which may be any. A server's own limit on the number of links in a path, `..` in a path, and a trailing slash on a file are not modelled.
- RemoteCopy.WhatSuccessMeans: nothing is claimed of a success with the target inside the source.
- RemoteTree.FollowFrame: a link's own target is a path without links in its directories.
- RemoteRemove.Server.Remove: `canonicalize` is modelled as following links and refusing circles; a server that answers with the path as given behaves as RemoveResolved.
- KeyboardInteractive.LoginStore.Login: a server that asks without end is excluded by the bound, since the original's loop does not return either; a connect whose primary login succeeds never reaches this code and is not modelled.
- Download.Download: the remote file does not change while it is being downloaded.
- Upload.Server.Upload: the local file does not change during an attempt or between the attempts of a sequence, and nobody else writes to the part or the target.
- RdpManager.NoRuntimeEscapes: "at most one live session per profile" is not claimed. A finished task removes the index entry of its profile whichever session it points to (lines 215-217), so a second connect can start another session.
- RdpManager.WaitsGoDown: status and error broadcasts, which never block, are not steps.
- SshManager.TraceIsGood: the reason texts of status and error events are not modelled.
- ExecWorker.RunExec: output stays bytes; the lossy conversion to text and the detail line of an error are not modelled.
- FramePacking.PackFrame: a buffer is shorter than half the address space, which Rust guarantees of every slice; frame ids and the event itself are not modelled.
- RdpFile.PrintedProfileParses: the profile's id, name, saved content and constant fields are not modelled.
- RdpConnect.TryConnect: the connector's configuration other than CredSSP, licence cache and bypass is not modelled; the wording of the NLA hint is a constructor of its own.
