# cppfs, modelled in Dafny

This project models the core of cppfs, a C++ library that gives one
interface to files and directories on the local POSIX and Windows file
systems and on remote hosts reached over SSH/SFTP. The model covers:

- **Paths and URLs.** `FilePath` unifies separators, splits a path into directory, file name, base name, extension and drive, joins paths and resolves `.` and `..`. `Url` splits a URL into protocol, location, address, path, login, host, user name and password.
- **Trees and diffs.** `Tree` is a snapshot of a directory, and `createDiff` computes the `Diff` that turns one snapshot into another. A `Change` is one copy, copy-directory, remove or remove-directory operation.
- **File handles.** There is one backend class per handle. Its POSIX, Windows and SSH variants cache file and link information. `FileHandle` is the facade over it: attributes, `readTree`, `listFiles`, directory creation and removal, copy, move, rename, remove, streams, and the generic copy and move between file systems.
- **Directory iteration.** This covers the iterator backends of the three platforms and the `FileIterator` wrapper.
- **SSH stream buffers.** These are the `streambuf` input and output buffers over an SFTP file.
- **File watching.** This covers the inotify backend, `FileWatcher` with its event handlers, and `FileVisitor` and its functional variant.
- **Small standalone parts.** These are `LoginCredentials`, the `opendir`-based `directorytraversal` functions, and `fs::open` and `fs::hashToString`.

The operating system and the SSH session are not modelled as code. They are
the value `Host.Host`, the answers `stat`, `lstat`, `readdir`, `sftp_read`
and the other calls give. Each operation takes that value as a parameter,
and the model proves what the library makes of those answers. An outcome
the host decides alone, such as whether a `rename` succeeds, is a boolean
parameter. The FileEvent values are not defined in the shipped `cppfs.h`.
They are modelled as the bits 1 (created), 2 (removed), 4 (modified) and 8
(attributes changed).

Where the documentation and the code differ, the model follows the code.
Where the code itself is wrong (the table under "## Findings"), the model
holds the code as written and the corrected behaviour side by side. The
members that use the corrected behaviour are the SSH input stream buffer's
`Underflow`, `Refill`, `ReadBehind` and `KeepPutback`, the digest text
`Fs.HashToString`, `SshFileHandle.ReadLinkInfo` and the collapsed
resolution (`FilePath.ResolvedCollapsed`, `HandlePaths.CollapsedParentTarget`).
The joining opening `FileHandles.Joining`, used by `FileHandles.WalksFinish`
and `LinuxFileWatcher.AddsFinish`, and the contents after a copy,
`PosixFileHandle.Copied`, are corrected definitions that stand beside the
code as written; no other member uses them.
Every other member follows the code as written, `FilePath.ResolvedPath`,
`FileHandles.FileHandle.ParentDirectory` and the SSH caches of
`Backend.FileHandleBackend` among them.
In a `Diff` all removals come before the copies, because the code collects
them first; the documentation's example lists a copy first. `createDiff`
compares the SHA-1 digests of two files unconditionally. A file replaced by
a directory of the same name is not removed before the directory is copied
(`Tree.FileReplacedByDirectory`).

## Model

| member | source | states |
|---|---|---|
| StdString.FindChar | source/cppfs/source/Url.cpp:213-241 | `find` of one character: the position of its first occurrence at or after `from`, or none when there is none |
| StdString.FindLastChar | source/cppfs/source/FilePath.cpp:133 | `find_last_of` of one character: the position of its last occurrence, or none |
| StdString.Find | source/cppfs/source/Url.cpp:200 | `find` of a string: the first position at or after `from` where it occurs, or none |
| StdString.Substr | source/cppfs/source/Url.cpp:204-205 | `substr(pos, n)`: the at most `n` characters from `pos`, cut at the end of the string |
| FilePath.Unify | source/cppfs/source/FilePath.cpp:126-128 | setPath's unified form keeps the length, has no backslash, and leaves every other character where it was |
| FilePath.UnifyUnified | source/cppfs/source/FilePath.cpp:126-128 | unifying a path that has no backslash changes nothing |
| FilePath.PointsToContentMeaning | source/cppfs/source/FilePath.cpp:130-135 | the flag setPath computes (`find_last_of('/') == size() - 1` in `size_t`) holds exactly for a path ending in `/` and for the empty path |
| FilePath.SplitParts | source/cppfs/source/FilePath.cpp:355-363 | the getline loop yields exactly the parts `Split` defines |
| FilePath.JoinPieces | source/cppfs/source/FilePath.cpp:355-363 | the pieces between separators, joined with `/`, give back the path |
| FilePath.PiecesAppend | source/cppfs/source/FilePath.cpp:355-363 | the pieces of `a/b` are those of `a` followed by those of `b` |
| FilePath.PiecesOfJoin | source/cppfs/source/FilePath.cpp:355-363 | splitting a `/`-join of separator-free names gives the names back |
| FilePath.SplitOfJoin | source/cppfs/source/FilePath.cpp:355-363 | the parts of such a join are the names when the last is non-empty (getline drops only a trailing empty piece) |
| FilePath.PiecesNoSeparator | source/cppfs/source/FilePath.cpp:355-363 | a string without `/` is a single piece |
| FilePath.PiecesHaveNoSeparator | source/cppfs/source/FilePath.cpp:355-363 | no part contains a separator |
| FilePath.FirstPiece | source/cppfs/source/FilePath.cpp:355-363 | the first part is the text before the first `/` |
| FilePath.SplitEmpty | source/cppfs/source/FilePath.cpp:355-363 | only the empty path has no parts |
| FilePath.LastPieceNonEmpty | source/cppfs/source/FilePath.cpp:355-363 | a path not ending in `/` keeps its last piece as a part |
| FilePath.SplitTrailingSeparator | source/cppfs/source/FilePath.cpp:355-363 | one trailing `/` adds an empty piece that getline drops: the parts are unchanged |
| FilePath.JoinSplit | source/cppfs/source/FilePath.cpp:355-363 | the parts joined by `/` are the path without one trailing separator |
| FilePath.FixParts | source/cppfs/source/FilePath.cpp:365-385 | the fixing loop appends `/` to a root first part and to every part before the last, and sets the absolute flag exactly for a root first part |
| FilePath.DirectoryOf | source/cppfs/source/FilePath.cpp:393-399 | the directory path is the concatenation of all fixed parts but the last |
| FilePath.SplitExtension | source/cppfs/source/FilePath.cpp:417-430 | base name and extension spell the file name; without an extension the base name is the whole name |
| FilePath.ExtensionAtFirstDot | source/cppfs/source/FilePath.cpp:417-430 | a non-empty extension starts at the first `.` after index 0; no extension means no such dot, or a name `.`/`..` |
| FilePath.Decomposed | source/cppfs/source/FilePath.cpp:338-439 | the body of analyze computes exactly `Analysis(path)` |
| FilePath.ManyParts | source/cppfs/source/FilePath.cpp:387-402 | with two or more parts the directory path is the parts but the last joined by `/` plus `/`, and the full path is the directory path followed by the file name |
| FilePath.OneRootPart | source/cppfs/source/FilePath.cpp:373-409 | a lone root part `R` gives full path, directory path and file name `R/`, absolute |
| FilePath.FullPathOfParts | source/cppfs/source/FilePath.cpp:387-415 | unless the only part is a root, the full path is the parts joined by `/` |
| FilePath.FullPathDropsOneSeparator | source/cppfs/include/cppfs/FilePath.h:190-201 | the full path is the path without one trailing separator; only a lone root gains one |
| FilePath.FullPathLength | source/cppfs/source/FilePath.cpp:387-415 | the full path is at most one character shorter than the path and stays unified |
| FilePath.TrailingSeparatorIgnored | source/cppfs/include/cppfs/FilePath.h:203-258 | `p/` and `p` have the same decomposition (the documented "for both ... and .../" behaviour) |
| FilePath.PrefixUnused | source/cppfs/source/FilePath.cpp:432-435 | the drive-letter prefix only matters when the full path has `:` at index 1 |
| FilePath.AbsoluteIffRootPrefix | source/cppfs/source/FilePath.cpp:373-378 | isAbsolute holds iff the text before the first `/` is empty or a drive `X:`; the empty path is relative |
| FilePath.AbsoluteFirstPart | source/cppfs/source/FilePath.cpp:373-378 | isAbsolute holds iff the first part is a root |
| FilePath.SplitDocumentedFile | source/cppfs/include/cppfs/FilePath.h:211-212 | `/path/to/something.ex` splits into `""`, `path`, `to`, `something.ex` |
| FilePath.SplitDocumentedExtension | source/cppfs/include/cppfs/FilePath.h:225-240 | `something.ex` splits into `something` and `.ex` |
| FilePath.DocumentedFileName | source/cppfs/include/cppfs/FilePath.h:211-212 | the file name of `/path/to/something.ex` is `something.ex` |
| FilePath.DocumentedExtension | source/cppfs/include/cppfs/FilePath.h:225-240 | its base name is `something` and its extension `.ex` |
| FilePath.DocumentedTrailingSeparator | source/cppfs/include/cppfs/FilePath.h:211-240 | `/path/to/something.ex/` decomposes exactly like `/path/to/something.ex` |
| FilePath.SplitDocumentedDirectory | source/cppfs/include/cppfs/FilePath.h:254-255 | `/path/to/directory` splits into `""`, `path`, `to`, `directory` |
| FilePath.DocumentedDirectoryPath | source/cppfs/include/cppfs/FilePath.h:254-255 | the directory path of `/path/to/directory` is `/path/to/` |
| FilePath.DocumentedDirectoryPathTrailing | source/cppfs/include/cppfs/FilePath.h:254-255 | so is that of `/path/to/directory/` |
| FilePath.SplitRoot | source/cppfs/source/FilePath.cpp:355-363 | `/` has the single empty part |
| FilePath.RootAnalysis | source/cppfs/source/FilePath.cpp:373-409 | `/` is absolute with full path, file name and directory path `/` |
| FilePath.DriveLetterOf | source/cppfs/source/FilePath.cpp:404-435 | any drive `X:` whose letter is not a colon is absolute, gains a separator and is its own drive letter |
| FilePath.DriveAnalysis | source/cppfs/source/FilePath.cpp:404-435 | `C:` is absolute with full path `C:/` and drive letter `C:` |
| FilePath.ResolveAppends | source/cppfs/source/FilePath.cpp:262-263 | a relative non-empty argument is appended to the full path with one `/`; the result ends like the argument (FilePath.h:307) and is at least as long as both |
| FilePath.ResolveEntry | source/cppfs/source/FilePath.cpp:262-263 | resolving a single entry name gives a path whose full path is itself and whose file name is that name |
| FilePath.ResolveAgainstRoot | source/cppfs/source/FilePath.cpp:262-263 | resolving `b` against `/` gives `//b` (the root's full path already ends in `/`) |
| FilePath.Run | source/cppfs/source/FilePath.cpp:284-318 | the normalisation loop never has more removable entries than stack entries, so `pop_back` is never called on an empty stack |
| FilePath.ResolvedParts | source/cppfs/source/FilePath.cpp:320-335 | resolved() never returns the empty string |
| FilePath.ResolvedPath | source/cppfs/source/FilePath.cpp:266-336 | the same for a path |
| FilePath.ResolvedSibling | source/tests/cppfs-test/FilePath_test.cpp:26 | `a/b/../c` resolves to `a/c` |
| FilePath.ResolvedUp | source/tests/cppfs-test/FilePath_test.cpp:27 | `../../a` resolves to itself |
| FilePath.ResolvedBeyond | source/tests/cppfs-test/FilePath_test.cpp:28 | `a/../../b` resolves to `../b` |
| FilePath.ResolvedAbsoluteTrailing | source/tests/cppfs-test/FilePath_test.cpp:29 | `/a/../b/` resolves to `/b` |
| FilePath.ResolvedPlain | source/tests/cppfs-test/FilePath_test.cpp:30 | `/usr/bin/bash` resolves to itself |
| FilePath.ResolvedBackAgain | source/tests/cppfs-test/FilePath_test.cpp:31 | `/usr/bin/../bin/bash` resolves to `/usr/bin/bash` |
| FilePath.ResolvedDoubleSeparator | source/tests/cppfs-test/FilePath_test.cpp:32 | as written `/usr/bin//../bin/bash` resolves to `/usr/bin/bin/bash`, not the expected `/usr/bin/bash`; with empty parts skipped it gives `/usr/bin/bash` |
| FilePath.ResolvedRelativeBecomesRooted | source/cppfs/source/FilePath.cpp:290-317 | as written the relative `.//x` resolves to the rooted `/x`; with empty parts skipped it gives `x` |
| FilePath.StepShape | source/cppfs/source/FilePath.cpp:287-317 | one loop step keeps the stack well shaped and keeps the root as first entry once absolute |
| FilePath.RunShape | source/cppfs/source/FilePath.cpp:284-318 | after the loop the stack is well shaped, is absolute iff the first part is a root, and then starts with that root |
| FilePath.ResolvedShape | source/cppfs/include/cppfs/FilePath.h:313-331 | after resolution no `.` is left, and every `..` comes only after other `..` entries or the root |
| FilePath.ComposeKeepsPrefix | source/cppfs/source/FilePath.cpp:320-331 | composing only appends to what was already composed |
| FilePath.ResolvedKeepsRoot | source/cppfs/source/FilePath.cpp:289-331 | an absolute path resolves to its root followed by `/` and then the rest |
| FilePath.PartsKeepRoot | source/cppfs/source/FilePath.cpp:289-331 | the same for parts starting with a root |
| FilePath.ResolvedCollapsedParts | source/tests/cppfs-test/FilePath_test.cpp:32 | resolution with empty inner parts skipped, as the test expects, never returns the empty string |
| FilePath.ResolvedCollapsed | source/tests/cppfs-test/FilePath_test.cpp:32 | the same for a path |
| FilePath.RunCollapsedShape | source/cppfs/source/FilePath.cpp:284-318 | with empty parts skipped the stack holds no empty name after the root |
| FilePath.FirstPartEmpty | source/cppfs/source/FilePath.cpp:355-363 | the first part of a non-empty path is empty iff the path starts with `/` |
| FilePath.CollapsedLeadingSeparator | source/cppfs/source/FilePath.cpp:289-331 | with empty parts skipped, the result starts with `/` iff the path does: a relative path stays relative |
| FilePath.FilePath.constructor | source/cppfs/source/FilePath.cpp:14-19 | the empty path with a cleared cache and the flag false |
| FilePath.FilePath.FromString | source/cppfs/source/FilePath.cpp:49-68 | a path built from a string holds its unified form and a cleared cache, and points to content iff the unified string is empty or ends in `/` (`PointsToContent`) |
| FilePath.FilePath.Copy | source/cppfs/source/FilePath.cpp:21-47 | copy and move construction take every member, cache included |
| FilePath.FilePath.SetPath | source/cppfs/source/FilePath.cpp:111-163 | the path becomes the unified string, the cache is cleared, and the flag holds iff the path is empty or ends in `/` |
| FilePath.FilePath.IsEmpty | source/cppfs/source/FilePath.cpp:176-179 | true iff the path is empty |
| FilePath.FilePath.Analyze | source/cppfs/source/FilePath.cpp:338-438 | fills the cache with `Analysis(path)` on first use, and keeps the path and flag |
| FilePath.FilePath.FullPath | source/cppfs/source/FilePath.cpp:186-191 | the analysed full path; the path is unchanged |
| FilePath.FilePath.FileName | source/cppfs/source/FilePath.cpp:193-198 | the analysed file name |
| FilePath.FilePath.BaseName | source/cppfs/source/FilePath.cpp:200-205 | the analysed base name |
| FilePath.FilePath.Extension | source/cppfs/source/FilePath.cpp:207-212 | the analysed extension |
| FilePath.FilePath.DirectoryPath | source/cppfs/source/FilePath.cpp:214-219 | the analysed directory path |
| FilePath.FilePath.DriveLetter | source/cppfs/source/FilePath.cpp:221-226 | the analysed drive letter |
| FilePath.FilePath.IsAbsolute | source/cppfs/source/FilePath.cpp:228-233 | the analysed absolute flag |
| FilePath.FilePath.IsRelative | source/cppfs/source/FilePath.cpp:235-240 | its negation |
| FilePath.FilePath.ResolveWith | source/cppfs/source/FilePath.cpp:242-264 | a fresh path equal to `Resolve(this, other)`: empty if both are, the argument if it is absolute or this is empty, this if the argument is empty, else the append; both operands keep their paths |
| FilePath.FilePath.Append | source/cppfs/source/FilePath.cpp:262-263 | the last case: a new path made of the full path, `/` and the argument |
| FilePath.FilePath.Resolved | source/cppfs/source/FilePath.cpp:266-336 | the two loops of resolved() compute exactly `ResolvedPath(path)` |
| Url.SplitProtocol | source/cppfs/source/Url.cpp:199-210 | protocol and location spell the URL |
| Url.ProtocolAtFirstMark | source/cppfs/source/Url.cpp:199-210 | the protocol is empty iff `://` does not occur; otherwise it ends just after the first `://` |
| Url.ProtocolEndsWithMark | source/cppfs/source/Url.cpp:204 | a non-empty protocol ends in `://` |
| Url.SplitAddress | source/cppfs/source/Url.cpp:212-224 | address and path spell the location |
| Url.AddressAtFirstSlash | source/cppfs/source/Url.cpp:212-224 | with a protocol other than `file://` and a `/` in the location, the address is the text before the first `/` and the path starts with it; otherwise the address is empty and the path is the whole location |
| Url.SplitLogin | source/cppfs/source/Url.cpp:226-238 | login and host are no longer than the address |
| Url.LoginAtFirstAt | source/cppfs/source/Url.cpp:226-238 | with an `@` the login is the text before the first `@` and the host the text after it; without one the login is empty and the host is the whole address |
| Url.SplitCredentials | source/cppfs/source/Url.cpp:240-251 | user name and password are no longer than the login |
| Url.CredentialsAtFirstColon | source/cppfs/source/Url.cpp:240-251 | with a `:` the user name is the text before the first `:` and the password the text after it; without one the user name is the whole login and the password empty |
| Url.Reassemble | source/cppfs/source/Url.cpp:184-255 | the parts reassemble the URL: protocol + location, location = address + path, address = login `@` host, login = user name `:` password |
| Url.LoginJoin | source/cppfs/source/Url.cpp:226-238 | the address is the login, `@` when present, and the host |
| Url.CredentialsJoin | source/cppfs/source/Url.cpp:240-251 | the login is the user name, `:` when present, and the password |
| Url.NoProtocolIsPath | source/cppfs/source/Url.cpp:207-224 | a URL without `://` is all path: every other part is empty |
| Url.FileUrlIsPath | source/cppfs/source/Url.cpp:216 | for `file://` everything after the protocol is the path, even text before a `/` |
| Url.HostOnlyLandsInPath | source/cppfs/source/Url.cpp:216-224 | `ssh://host` without a `/` has an empty host and `host` as its path |
| Url.FullSshUrl | source/cppfs/source/Url.cpp:184-255 | `ssh://user:pw@host/x` analyses into `ssh://`, `user:pw@host`, `/x`, `user:pw`, `host`, `user`, `pw` |
| Url.Url.constructor | source/cppfs/source/Url.cpp:11-23 | the empty URL, not analysed, with empty parts |
| Url.Url.FromString | source/cppfs/source/Url.cpp:53-93 | the given string, not analysed, with empty parts |
| Url.Url.Copy | source/cppfs/source/Url.cpp:25-51 | copy and move construction take the string, the flag and the parts |
| Url.Url.Assign | source/cppfs/source/Url.cpp:99-129 | both assignments take the string, the flag and the parts |
| Url.Url.ToString | source/cppfs/source/Url.cpp:131-134 | the string as given |
| Url.Url.Analyze | source/cppfs/source/Url.cpp:184-255 | afterwards the URL is analysed with the parts `Analysis(url)`; a second call changes nothing |
| Url.Url.Protocol | source/cppfs/source/Url.cpp:136-140 | the analysed protocol |
| Url.Url.Location | source/cppfs/source/Url.cpp:142-146 | the analysed location |
| Url.Url.Address | source/cppfs/source/Url.cpp:148-152 | the analysed address |
| Url.Url.Path | source/cppfs/source/Url.cpp:154-158 | the analysed path |
| Url.Url.Login | source/cppfs/source/Url.cpp:160-164 | the analysed login |
| Url.Url.Host | source/cppfs/source/Url.cpp:166-170 | the analysed host |
| Url.Url.Username | source/cppfs/source/Url.cpp:172-176 | the analysed user name |
| Url.Url.Password | source/cppfs/source/Url.cpp:178-182 | the analysed password |
| Change.ToString | source/cppfs/source/Change.cpp:59-69 | a change without an operation prints `NOOP`; every other change prints a non-empty keyword followed by its path |
| Change.ParseToString | source/cppfs/source/Change.cpp:59-69 | the printed line reads back as the same change: the four keywords `CP `, `CPDIR `, `RM `, `RMDIR ` and `NOOP` are told apart |
| Change.SameText | source/cppfs/source/Change.cpp:59-69 | two changes print alike iff they have the same operation and, unless it is none, the same path |
| Change.SingleLine | source/cppfs/source/Change.cpp:59-69 | a path without a newline prints as one line |
| Diff.RenderAppend | source/cppfs/source/Diff.cpp:49-55 | printing two runs of changes prints the first and then the second |
| Diff.RenderOne | source/cppfs/source/Diff.cpp:51-54 | a single change prints as its line and a newline |
| Diff.RenderFirst | source/cppfs/source/Diff.cpp:51-54 | each change prints as its line and `endl` |
| Diff.ParseRender | source/cppfs/source/Diff.cpp:49-55 | the printed text of single-line changes reads back line by line as the same list |
| Diff.Diff.constructor | source/cppfs/source/Diff.cpp:11-13 | an empty list |
| Diff.Diff.Clear | source/cppfs/source/Diff.cpp:19-22 | the list becomes empty |
| Diff.Diff.Changes | source/cppfs/source/Diff.cpp:24-27 | the list, element for element |
| Diff.Diff.Add | source/cppfs/source/Diff.cpp:29-37 | the change is appended; nothing else changes |
| Diff.Diff.AddOperation | source/cppfs/source/Diff.cpp:39-47 | a change made of the operation and path is appended |
| Diff.Diff.Print | source/cppfs/source/Diff.cpp:49-55 | the loop writes exactly `Render(changes)` |
| Tree.Names | source/cppfs/source/Tree.cpp:166-169 | the children's file names, in order |
| Tree.ListFiles | source/cppfs/source/Tree.cpp:157-172 | a file lists nothing; a directory lists each child's file name in order |
| Tree.Add | source/cppfs/source/Tree.cpp:184-194 | a null child changes nothing; otherwise it is appended to the children and nothing else changes |
| Tree.IndexOf | source/cppfs/source/Tree.cpp:269 | `std::find`: the first index holding the name, none iff the name is absent |
| Tree.Counterpart | source/cppfs/source/Tree.cpp:269-270 | the current child a target child is compared with is a child of the current tree with that name; there is none iff the current tree is a file or has no such name |
| Tree.DiffOf | source/cppfs/source/Tree.cpp:224-238 | no target or a file target gives no change; a missing current directory gives one `CPDIR` of the target |
| Tree.CollectDiff | source/cppfs/source/Tree.cpp:224-302 | the recursive method appends exactly `DiffOf(current, target)` |
| Tree.CollectRemovals | source/cppfs/source/Tree.cpp:244-263 | the first loop appends exactly the removals of current children missing from the target |
| Tree.CollectUpdates | source/cppfs/source/Tree.cpp:265-301 | the second loop appends exactly the updates for the target's children, in order |
| Tree.CollectUpdate | source/cppfs/source/Tree.cpp:268-300 | one turn of that loop appends the changes of one target child |
| Tree.CollectChild | source/cppfs/source/Tree.cpp:272-300 | a directory child recurses; a file child gives one `CP` iff it is missing, or its size or SHA-1 differs |
| Tree.CreateDiff | source/cppfs/source/Tree.cpp:206-213 | a fresh diff holding exactly `DiffOf(this, target)` |
| Tree.RemovalsAppend | source/cppfs/source/Tree.cpp:245-263 | removals of two runs of children are those of the first then the second |
| Tree.RemovalsExactly | source/cppfs/source/Tree.cpp:245-263 | every removal is `RM` or `RMDIR` of a current child missing from the target, and every such child is removed |
| Tree.KeptChildNotRemoved | source/cppfs/source/Tree.cpp:248 | a child whose name the target has adds no removal |
| Tree.FileAsCurrent | source/cppfs/source/Tree.cpp:161-270 | when the current node is a file, nothing of it is removed and every target child is copied |
| Tree.UpdatesUnmatched | source/cppfs/source/Tree.cpp:265-301 | against a file every target child is new: files are `CP`, directories `CPDIR` |
| Tree.FileCopiedUnlessEqual | source/cppfs/source/Tree.cpp:280-299 | a target file is copied when no current child has its name, and otherwise iff the first child with that name differs in size or SHA-1 |
| Tree.RemovalsNone | source/cppfs/source/Tree.cpp:245-263 | when every current name is in the target, nothing is removed |
| Tree.SelfDiffEmpty | source/cppfs/source/Tree.cpp:224-302 | a tree with distinct sibling names diffs against itself to nothing |
| Tree.SelfUpdatesEmpty | source/cppfs/source/Tree.cpp:265-301 | the same for the update loop |
| Tree.RemovalsComeFirst | source/cppfs/source/Tree.cpp:244-301 | removals are listed before copies: `RMDIR b`, then `CP a.txt`, then `CP c.txt` |
| Tree.FileReplacedByDirectory | source/cppfs/source/Tree.cpp:269-276 | a file replaced by a directory of the same name is not removed; only the directory's contents are copied |
| Permissions.FromMode | source/cppfs/source/posix/LocalFileHandle.cpp:246-277 | the flags read from a mode use only the nine permission flags |
| Permissions.FromModeBits | source/cppfs/source/posix/LocalFileHandle.cpp:252-273 | each of the nine flags is set iff its mode bit (`S_IRUSR` ... `S_IXOTH`) is set |
| Permissions.ToMode | source/cppfs/source/posix/LocalFileHandle.cpp:279-301 | the mode given to `chmod` uses only the nine permission bits |
| Permissions.ToModeBits | source/cppfs/source/posix/LocalFileHandle.cpp:281-301 | each of the nine mode bits is set iff its flag is set |
| Permissions.FlagsRoundTrip | source/cppfs/source/posix/LocalFileHandle.cpp:246-301 | flags written with setPermissions read back as the same permission flags; any other bits are lost |
| Permissions.ModeRoundTrip | source/cppfs/source/posix/LocalFileHandle.cpp:246-301 | a mode read as flags converts back to its permission bits |
| Permissions.SpecialFlagsCollide | source/cppfs/include/cppfs/cppfs.h:18-29 | `SetGid` (02000) equals `UserRead` (0x400) and `Sticky` (01000) equals `UserWrite`, so setting them grants owner read or write; `SetUid` maps to no mode bit |
| Host.Lookup | source/cppfs/source/posix/LocalFileHandle.cpp:500-515 | a stat call succeeds iff the path is known, and then yields its record |
| Host.UInt | source/cppfs/source/posix/LocalFileHandle.cpp:161-210 | the `unsigned int` the accessors return: below 2^32, and the value itself when it fits |
| Host.Visible | source/cppfs/source/posix/LocalFileHandle.cpp:132-147 | the names kept by listFiles: none is `.` or `..`, and there are no more than were read |
| Host.VisibleAppend | source/cppfs/source/posix/LocalFileHandle.cpp:132-147 | filtering two runs of names filters each in turn |
| Host.VisibleMembers | source/cppfs/source/posix/LocalFileHandle.cpp:139-143 | a name is listed iff the directory holds it and it is not `.` or `..` |
| Backend.FilledIsSticky | source/cppfs/source/posix/LocalFileHandle.cpp:500-503 | once read, the file information is kept until updateFileInfo: a later read changes nothing |
| Backend.FailedStatRetries | source/cppfs/source/posix/LocalFileHandle.cpp:509-514 | a failed stat leaves no cache, so the next access stats again |
| Backend.FilledFromHost | source/cppfs/source/ssh/SshFileHandle.cpp:634-656 | a fresh read succeeds only on a connected file system that knows the path, and stores its record |
| Backend.WindowsKinds | source/cppfs/source/windows/LocalFileHandle.cpp:65-87 | on Windows an existing entry is a file or a directory, never both; a missing one is neither |
| Backend.PosixKinds | source/cppfs/source/posix/LocalFileHandle.cpp:85-174 | on POSIX nothing is both a file and a directory, and only a regular file has a non-zero size |
| Backend.SshSocketIsBoth | source/cppfs/source/ssh/SshFileHandle.cpp:89-125 | over SSH a socket passes both the file and the directory test |
| Backend.ListingMembers | source/cppfs/source/posix/LocalFileHandle.cpp:121-154 | the listing of an opened directory holds exactly its entries other than `.` and `..` |
| Backend.CollectNames | source/cppfs/source/posix/LocalFileHandle.cpp:132-147 | the readdir loop keeps exactly `Visible(raw)`, in order |
| Backend.FileHandleBackend.constructor | source/cppfs/source/posix/LocalFileHandle.cpp:20-31 | a handle on the file system and path with no information read |
| Backend.FileHandleBackend.Clone | source/cppfs/source/posix/LocalFileHandle.cpp:46-49 | a fresh handle on the same file system and path with no information read |
| Backend.FileHandleBackend.UpdateFileInfo | source/cppfs/source/posix/LocalFileHandle.cpp:56-71 | both caches are dropped; the path stays |
| Backend.FileHandleBackend.ReadFileInfo | source/cppfs/source/posix/LocalFileHandle.cpp:500-515 | the file cache becomes `Filled(...)`: kept if present, else the stat record or nothing; SSH needs a session (SshFileHandle.cpp:634-656) |
| Backend.FileHandleBackend.ReadLinkInfo | source/cppfs/source/ssh/SshFileHandle.cpp:658-680 | on POSIX the link cache is filled by lstat (posix/LocalFileHandle.cpp:517-532); over SSH the caches change as `ReadLinkInfoAsWritten` says |
| Backend.FileHandleBackend.Exists | source/cppfs/source/posix/LocalFileHandle.cpp:78-83 | true iff the file information could be read |
| Backend.FileHandleBackend.IsFile | source/cppfs/source/posix/LocalFileHandle.cpp:85-95 | the platform's file test on the read information; false when there is none |
| Backend.FileHandleBackend.IsDirectory | source/cppfs/source/posix/LocalFileHandle.cpp:97-107 | the platform's directory test on the read information |
| Backend.FileHandleBackend.IsSymbolicLink | source/cppfs/source/posix/LocalFileHandle.cpp:109-119 | POSIX tests the lstat record, Windows the file attributes (windows/LocalFileHandle.cpp:89-99), SSH its link cache as written |
| Backend.FileHandleBackend.ListFiles | source/cppfs/source/posix/LocalFileHandle.cpp:121-154 | the entries of the directory, dots left out; nothing when it does not open |
| Backend.FileHandleBackend.Size | source/cppfs/source/posix/LocalFileHandle.cpp:161-174 | the platform's size of the read information, 0 when there is none |
| Backend.FileHandleBackend.AccessTime | source/cppfs/source/posix/LocalFileHandle.cpp:176-186 | the platform's access time |
| Backend.FileHandleBackend.ModificationTime | source/cppfs/source/posix/LocalFileHandle.cpp:188-198 | the platform's modification time |
| Backend.FileHandleBackend.UserId | source/cppfs/source/posix/LocalFileHandle.cpp:200-210 | the owner's id; Windows returns 0 without reading anything (windows/LocalFileHandle.cpp:183-186) |
| Backend.FileHandleBackend.GroupId | source/cppfs/source/posix/LocalFileHandle.cpp:223-233 | the group's id; 0 on Windows |
| Backend.FileHandleBackend.Permissions | source/cppfs/source/posix/LocalFileHandle.cpp:246-277 | the flags of the mode; 0 on Windows |
| Backend.FileHandleBackend.SetUserId | source/cppfs/source/posix/LocalFileHandle.cpp:212-221 | asks for `chown(uid, current group)` and drops the caches; Windows does nothing |
| Backend.FileHandleBackend.SetGroupId | source/cppfs/source/posix/LocalFileHandle.cpp:235-244 | asks for `chown(current owner, gid)` and drops the caches; Windows does nothing |
| Backend.FileHandleBackend.SetPermissions | source/cppfs/source/posix/LocalFileHandle.cpp:279-308 | asks for `chmod(ToMode(permissions))` iff connected and not on Windows, and then drops the caches |
| Backend.FileHandleBackend.CreateDirectory | source/cppfs/source/posix/LocalFileHandle.cpp:310-324 | succeeds iff the path does not exist and mkdir succeeds; success drops the caches |
| Backend.FileHandleBackend.RemoveDirectory | source/cppfs/source/posix/LocalFileHandle.cpp:326-340 | succeeds iff the path is a directory and the removal succeeds |
| Backend.FileHandleBackend.Remove | source/cppfs/source/posix/LocalFileHandle.cpp:474-488 | succeeds iff the path is a file and the removal succeeds |
| Backend.FileHandleBackend.TargetIn | source/cppfs/source/posix/LocalFileHandle.cpp:348-355 | the destination path: the destination itself, or inside it under the source's file name when it is a directory |
| Backend.FileHandleBackend.Copy | source/cppfs/source/posix/LocalFileHandle.cpp:342-371 | proceeds iff the source is a file (and SSH has a session); POSIX then succeeds iff both streams open; the target is `Destination(...)` |
| Backend.FileHandleBackend.Move | source/cppfs/source/posix/LocalFileHandle.cpp:373-400 | proceeds iff the source exists; on success the handle's path becomes the target and the caches are dropped |
| Backend.FileHandleBackend.CreateLink | source/cppfs/source/posix/LocalFileHandle.cpp:402-425 | proceeds iff the source exists (a file on Windows); SSH always fails (ssh/SshFileHandle.cpp:511-515) |
| Backend.FileHandleBackend.CreateSymbolicLink | source/cppfs/source/posix/LocalFileHandle.cpp:427-450 | proceeds iff the source exists (a file on Windows) |
| Backend.FileHandleBackend.Rename | source/cppfs/source/posix/LocalFileHandle.cpp:452-472 | proceeds iff the source exists; the target is the name placed in the source's directory; success moves the handle there |
| Backend.FileHandleBackend.CreateInputStream | source/cppfs/source/ssh/SshFileHandle.cpp:601-617 | local handles always give a stream on the path; SSH only for an existing file on a connected system |
| Backend.FileHandleBackend.CreateOutputStream | source/cppfs/source/ssh/SshFileHandle.cpp:619-632 | a stream on the path, over SSH only when connected |
| PosixFileHandle.TypesExclusive | source/cppfs/source/posix/LocalFileHandle.cpp:85-119 | `S_ISREG`, `S_ISDIR` and `S_ISLNK` compare the whole type field, so at most one holds, whatever the permission bits |
| PosixFileHandle.Size | source/cppfs/source/posix/LocalFileHandle.cpp:161-174 | non-zero only for a regular file, whose size is returned truncated to `unsigned int` |
| PosixFileHandle.AccessTime | source/cppfs/source/posix/LocalFileHandle.cpp:176-186 | `st_atime` truncated to `unsigned int` |
| PosixFileHandle.ModificationTime | source/cppfs/source/posix/LocalFileHandle.cpp:188-198 | `st_mtime` truncated to `unsigned int` |
| PosixFileHandle.PermissionsOf | source/cppfs/source/posix/LocalFileHandle.cpp:246-277 | only permission flags, and converting them back gives the mode's permission bits; the SSH handle (`ssh/SshFileHandle.cpp` lines 303-334) converts the same way and shares this member |
| PosixFileHandle.LargeFileWraps | source/cppfs/source/posix/LocalFileHandle.cpp:169 | a 5 GiB file reports 1 GiB |
| PosixFileHandle.CopiedAsWritten | source/cppfs/source/posix/LocalFileHandle.cpp:357-368 | the files after `copy` as written: the destination is emptied when its stream opens, then receives the source as it is by then; no other file changes |
| PosixFileHandle.SelfCopyEmpties | source/cppfs/source/posix/LocalFileHandle.cpp:357-368 | copying a file onto itself as written leaves it empty, so a non-empty file loses its contents |
| PosixFileHandle.Copied | source/cppfs/source/posix/LocalFileHandle.cpp:342-371 | the corrected copy: the destination holds what the source held and no other file changes; a copy onto itself changes nothing |
| PosixFileHandle.CopiesAgreeApart | source/cppfs/source/posix/LocalFileHandle.cpp:357-368 | whenever source and destination differ, the code as written and the corrected copy give the same files |
| WindowsFileHandle.FileOrDirectory | source/cppfs/source/windows/LocalFileHandle.cpp:65-87 | an existing entry is exactly one of file and directory |
| WindowsFileHandle.Joined | source/cppfs/source/windows/LocalFileHandle.cpp:149 | `(high << 32 \| low)` cast to `unsigned int` stays below 2^32 |
| WindowsFileHandle.JoinedIsLowHalf | source/cppfs/source/windows/LocalFileHandle.cpp:149 | the cast keeps only the low word |
| WindowsFileHandle.LowHalf | source/cppfs/source/windows/LocalFileHandle.cpp:149 | the 64-bit value modulo 2^32 is its low word |
| WindowsFileHandle.Size | source/cppfs/source/windows/LocalFileHandle.cpp:140-153 | the low word of the file size |
| WindowsFileHandle.AccessTime | source/cppfs/source/windows/LocalFileHandle.cpp:155-167 | the low word of the access time |
| WindowsFileHandle.ModificationTime | source/cppfs/source/windows/LocalFileHandle.cpp:169-181 | the low word of the write time |
| WindowsFileHandle.SizesFourGibibytesApartCollide | source/cppfs/source/windows/LocalFileHandle.cpp:146-149 | two different sizes with the same low word report the same size |
| SshFileHandle.BitwiseTestsMisclassify | source/cppfs/source/ssh/SshFileHandle.cpp:98-136 | as written the type tests are bit masks: a regular file passes the link test, a link the file test, a socket both |
| SshFileHandle.TypeFieldTestsExclusive | source/cppfs/source/ssh/SshFileHandle.cpp:98-136 | compared as a whole type field the tests exclude each other, and each implies the mask test |
| SshFileHandle.Size | source/cppfs/source/ssh/SshFileHandle.cpp:188-205 | non-zero only when the file test passes, then the size truncated to `unsigned int` |
| SshFileHandle.LinkReportsSize | source/cppfs/source/ssh/SshFileHandle.cpp:197-199 | so a symbolic link reports its own size |
| SshFileHandle.CopyCommand | source/cppfs/source/ssh/SshFileHandle.cpp:461 | the remote command is `cp "src" "dst"`: eight characters around the two paths |
| SshFileHandle.CopyCommandParses | source/cppfs/source/ssh/SshFileHandle.cpp:461 | for paths without `"` the command reads back as the two paths |
| SshFileHandle.CopyCommandAmbiguous | source/cppfs/source/ssh/SshFileHandle.cpp:461 | with a `"` in a path two different copies give the same command |
| SshFileHandle.ReadLinkInfoAsWritten | source/cppfs/source/ssh/SshFileHandle.cpp:658-680 | as written lstat writes into the file record: a filled link cache is kept, and a fresh one holds only the new, unwritten block |
| SshFileHandle.ReadLinkInfo | source/cppfs/source/ssh/SshFileHandle.cpp:658-680 | as intended the file record is untouched and the link cache holds the lstat record |
| SshFileHandle.LinkInfoLandsInFileRecord | source/cppfs/source/ssh/SshFileHandle.cpp:674 | as written a link is not reported as a link and the file record becomes the link's; as intended both are right |
| HandlePaths.EntryAnalysis | source/cppfs/source/FilePath.cpp:338-439 | a single entry name is its own file name and full path, and relative |
| HandlePaths.PlacedInDirectory | source/cppfs/source/posix/LocalFileHandle.cpp:353-354 | resolving a name against a directory gives the directory's full path, `/` and the name, whose file name is that name |
| HandlePaths.DestinationKeepsName | source/cppfs/source/posix/LocalFileHandle.cpp:351-355 | copying into a directory keeps the source's file name |
| HandlePaths.PlacedAtTop | source/cppfs/source/FilePath.cpp:252-256 | resolving a name against the empty path gives the name |
| HandlePaths.OpenEntry | source/cppfs/source/FileHandle.cpp:197-200 | opening a name below a handle names that entry, with a longer path |
| HandlePaths.FullPathFirst | source/cppfs/source/FilePath.cpp:387-415 | the full path of a non-empty path starts with the same character |
| HandlePaths.ResolveUp | source/cppfs/source/FileHandle.cpp:192-195 | parentDirectory resolves `..` against the full path |
| HandlePaths.ParentFirst | source/cppfs/source/FileHandle.cpp:192-195 | the `..` joined to a non-empty unified path is non-empty and starts with `/` iff the path starts with a separator |
| HandlePaths.RootedStaysRooted | source/cppfs/source/FilePath.cpp:320-335 | a path that starts with `/` resolves to a path that starts with `/` |
| HandlePaths.ParentKeepsRoot | source/cppfs/source/FileHandle.cpp:192-195 | as written, the parent of an absolute path is rooted (the converse fails, see Findings) |
| HandlePaths.CollapsedParentKeepsRoot | source/cppfs/source/FileHandle.cpp:192-195 | with empty parts skipped, the parent of a non-empty path is non-empty and is rooted iff the path is |
| HandlePaths.ParentOfRelativeBecomesRooted | source/cppfs/source/FileHandle.cpp:192-195 | as written the parent of the relative `.//x/y` is the rooted `/x`; with empty parts skipped it is `x` |
| HandlePaths.RenameKeepsName | source/cppfs/source/posix/LocalFileHandle.cpp:458 | the renamed path has the new file name, in the old directory |
| HandlePaths.MoveIntoDirectoryExample | source/cppfs/source/posix/LocalFileHandle.cpp:382-386 | moving `/home/a.txt` into the directory `/tmp` targets `/tmp/a.txt` |
| Iterators.EntriesAreListFiles | source/cppfs/source/posix/LocalFileIterator.cpp:90-108 | the names an iterator yields, read from an opened directory, are exactly what listFiles returns (posix/LocalFileHandle.cpp:121-154) |
| Iterators.ReadAt | source/cppfs/source/posix/LocalFileIterator.cpp:96 | one readdir: the next raw entry and one position on, or nothing at the end |
| Iterators.SkipDots | source/cppfs/source/posix/LocalFileIterator.cpp:100-107 | the skip loop stops on a name other than `.` and `..` or at the end, and leaves a non-dot entry alone |
| Iterators.SkippingStep | source/cppfs/source/posix/LocalFileIterator.cpp:90-108 | on POSIX and SSH a step of an open iterator raises the index by one whatever it skips; a closed one stays put |
| Iterators.WindowsStep | source/cppfs/source/windows/LocalFileIterator.cpp:89-127 | a Windows step lands on a non-dot entry or closes at the end; the index grows by one per entry read, dots included, and only closing leaves it unchanged |
| Iterators.SkippingStepRest | source/cppfs/source/ssh/SshFileIterator.cpp:85-117 | after a POSIX or SSH step the names still to come are the visible names after the position |
| Iterators.WindowsStepRest | source/cppfs/source/windows/LocalFileIterator.cpp:93-126 | after a Windows step the names still to come are the visible names after the position, or all of them when the step reopened the directory |
| Iterators.WindowsReadRest | source/cppfs/source/windows/LocalFileIterator.cpp:110-126 | the same for a step that read an entry |
| Iterators.StartYieldsEntries | source/cppfs/source/posix/LocalFileIterator.cpp:19-31 | a new iterator yields the directory's entries without dots, in order |
| Iterators.StepYieldsNext | source/cppfs/source/posix/LocalFileIterator.cpp:85-88 | a step of a valid iterator drops exactly the current name from what is still to come |
| Iterators.ValidNameIsNoDot | source/cppfs/source/posix/LocalFileIterator.cpp:73-83 | a valid iterator's name is the next name to come and never `.` or `..` |
| Iterators.NameOf | source/cppfs/source/windows/LocalFileIterator.cpp:72-82 | the current entry's name while valid; empty otherwise |
| Iterators.SkippingIndex | source/cppfs/source/ssh/SshFileIterator.cpp:85-95 | on POSIX and SSH the index counts calls, not entries; a closed iterator ignores the call |
| Iterators.UnopenedStaysInvalid | source/cppfs/source/posix/LocalFileIterator.cpp:90-93 | an iterator whose directory did not open stays invalid with index -1 |
| Iterators.WindowsCountsDots | source/cppfs/source/windows/LocalFileIterator.cpp:121-126 | on `.`, `..`, `a` the first Windows entry has index 2 while POSIX gives 0 |
| Iterators.WindowsRestarts | source/cppfs/source/windows/LocalFileIterator.cpp:95-118 | an exhausted Windows iterator closes its handle, so the next call opens the directory again and yields the first name once more |
| Iterators.IterateFixed | source/cppfs/source/posix/LocalFileIterator.cpp:93 | a state a step does not change is never left |
| Iterators.StepShrinks | source/cppfs/source/posix/LocalFileIterator.cpp:44-47 | while the index is below the target each step brings the clone closer to it |
| Iterators.Replay | source/cppfs/source/posix/LocalFileIterator.cpp:41-51 | clone's catch-up loop ends with an index at least the original's |
| Iterators.NoTwoSilentSteps | source/cppfs/source/windows/LocalFileIterator.cpp:112-118 | only a Windows close leaves the index unchanged, and the step after it raises it |
| Iterators.IterateMonotone | source/cppfs/source/posix/LocalFileIterator.cpp:95-97 | the index never falls, and two steps raise it |
| Iterators.ReplayReaches | source/cppfs/source/posix/LocalFileIterator.cpp:41-51 | replaying to the original's index gives the original's state, except that a Windows clone of an exhausted iterator stops one close earlier |
| Iterators.ExhaustedCloneIsValid | source/cppfs/source/windows/LocalFileIterator.cpp:40-50 | as written a clone of an exhausted Windows iterator over `.`, `..`, `a` is valid and names `a` |
| Iterators.CorrectedCloneIsExact | source/cppfs/source/windows/LocalFileIterator.cpp:40-50 | with the original's validity also matched, the clone is the original's state on every platform |
| Iterators.IteratorBackend.constructor | source/cppfs/source/posix/LocalFileIterator.cpp:19-31 | a new iterator is in the start state: directory opened (if it opens) and the first entry read |
| Iterators.IteratorBackend.ReadNextEntry | source/cppfs/source/posix/LocalFileIterator.cpp:90-108 | the loops of readNextEntry for each platform compute exactly `Step` |
| Iterators.IteratorBackend.Next | source/cppfs/source/posix/LocalFileIterator.cpp:85-88 | one step; a valid iterator moves on to the next name |
| Iterators.IteratorBackend.Name | source/cppfs/source/posix/LocalFileIterator.cpp:73-83 | the next name to come while valid, never a dot; empty when invalid |
| Iterators.IteratorBackend.Clone | source/cppfs/source/posix/LocalFileIterator.cpp:41-51 | a fresh iterator on the same directory replayed to the original's index |
| FileIterators.FileIterator.constructor | source/cppfs/source/FileIterator.cpp:11-13 | an iterator without a backend (the end iterator) |
| FileIterators.FileIterator.Of | source/cppfs/source/FileIterator.cpp:15-18 | an iterator over the given backend |
| FileIterators.FileIterator.CopyOf | source/cppfs/source/FileIterator.cpp:20-23 | a copy holds a fresh clone of the backend, or none |
| FileIterators.FileIterator.MovedFrom | source/cppfs/source/FileIterator.cpp:25-28 | the backend moves over and the source is left without one |
| FileIterators.FileIterator.Assign | source/cppfs/source/FileIterator.cpp:34-46 | assignment holds a fresh clone of the other backend, or none |
| FileIterators.FileIterator.Name | source/cppfs/source/FileIterator.cpp:48-51 | `*it`: the next name while valid, empty without a valid backend |
| FileIterators.FileIterator.Next | source/cppfs/source/FileIterator.cpp:53-59 | `++it` steps the backend, if any; a valid iterator moves on to the next name |
| FileIterators.FileIterator.Equals | source/cppfs/source/FileIterator.cpp:61-103 | two valid iterators are equal iff file system, path and index agree; otherwise iff both are invalid |
| FileIterators.FileIterator.NotEquals | source/cppfs/source/FileIterator.cpp:105-108 | the negation |
| FileIterators.InvalidEqualsEnd | source/cppfs/source/FileIterator.cpp:98-102 | an iterator equals the end iterator iff it is not valid |
| FileIterators.EqualsIsEquivalence | source/cppfs/source/FileIterator.cpp:61-103 | `==` is reflexive, symmetric and transitive |
| FileHandles.ListedAreEntries | source/cppfs/source/FileHandle.cpp:101-104 | every listed name is a plain entry name, so opening it names a child |
| FileHandles.OpenedFits | source/cppfs/source/ssh/SshFileIterator.cpp:97-101 | the listings iterators read keep no empty SSH name and no empty Windows directory |
| FileHandles.DigestOf | source/cppfs/source/FileHandle.cpp:187-190 | the SHA-1 text of a path with a digest, empty otherwise |
| FileHandles.Deeper | source/cppfs/source/FileHandle.cpp:104-113 | a child path the host knows that is longer than its directory leaves fewer known paths above it, which bounds how deep a descending walk goes |
| FileHandles.SubPath | source/cppfs/source/FileHandle.cpp:108-110 | a child's tree path is the name at the top, else the parent's tree path, `/` and the name |
| FileHandles.NodeOf | source/cppfs/source/FileHandle.cpp:85-95 | a node records the tree path, the file name, the directory flag and the SHA-1, with no children yet |
| FileHandles.FilledFits | source/cppfs/source/posix/LocalFileHandle.cpp:500-515 | reading the information keeps the cache in the platform's record form |
| FileHandles.ListingEntries | source/cppfs/source/FileHandle.cpp:101-104 | a whole listing is made of entry names |
| FileHandles.TreeOf | source/cppfs/source/FileHandle.cpp:77-125 | for an opening `o` (the `open` and `fileName` the walk uses) and a depth within which the walk finishes: a tree exists iff the path does, and carries the given tree path and `o`'s file name of the path |
| FileHandles.ChildrenOf | source/cppfs/source/FileHandle.cpp:101-120 | at most one child per listed name |
| FileHandles.ChildTree | source/cppfs/source/FileHandle.cpp:104-119 | a child tree exists iff the entry `open` gives for the name exists; it carries that entry's file name, stored below the parent's tree path |
| FileHandles.EntryOpens | source/cppfs/source/FileHandle.cpp:197-200 | opening an entry name gives a longer path with that file name |
| FileHandles.EntryPathLonger | source/cppfs/source/FileHandle.cpp:101-113 | joining any non-empty name below a directory gives a longer path |
| FileHandles.PresentNames | source/cppfs/source/FileHandle.cpp:104-105 | the names whose entry exists, at most all of them |
| FileHandles.AllPresent | source/cppfs/source/FileHandle.cpp:104-105 | when every entry exists, none is skipped |
| FileHandles.OpenedNames | source/cppfs/source/FileHandle.cpp:108-110 | one file name per name, each the name of the entry it opens |
| FileHandles.OpenedKeepNames | source/cppfs/source/FileHandle.cpp:108-110 | names that keep their own name once opened are reported unchanged |
| FileHandles.ChildrenSnoc | source/cppfs/source/FileHandle.cpp:116-119 | one more name adds its subtree at the end, if it exists |
| FileHandles.ChildrenFollowListing | source/cppfs/source/FileHandle.cpp:101-120 | the children's names are the file names of the entries that exist once opened, in listing order |
| FileHandles.ChildrenStoredBelow | source/cppfs/source/FileHandle.cpp:108-113 | each child's tree path is its name below the parent's tree path |
| FileHandles.TreeShape | source/cppfs/source/FileHandle.cpp:77-125 | the tree of an existing path: its tree path, file name, directory flag and SHA-1; a file has no children; a directory's children carry the file names of its listed entries that exist once opened, in listing order, each stored below it |
| FileHandles.EntryChildrenNamed | source/cppfs/source/FileHandle.cpp:101-120 | with plain entry names as written, the children are named exactly by the listed names whose entries exist, in listing order |
| FileHandles.TreeOfNode | source/cppfs/source/FileHandle.cpp:77-125 | the tree of an existing path is its node, with the listed children added for a directory, which then finishes one level down |
| FileHandles.TreeOfFilled | source/cppfs/source/FileHandle.cpp:80-95 | reading the information first does not change the tree |
| FileHandles.TreeOfAnyDepth | source/cppfs/source/FileHandle.cpp:77-125 | the tree does not depend on the depth bound: any two depths within which the walk finishes give the same tree |
| FileHandles.ChildrenAnyDepth | source/cppfs/source/FileHandle.cpp:101-120 | the same for the children of a list of names |
| FileHandles.EntryNamesOpenBelow | source/cppfs/source/FileHandle.cpp:104 | `open` of a plain entry name leads below the directory |
| FileHandles.JoinedNamesOpenBelow | source/cppfs/source/FileHandle.cpp:104 | joining a non-empty name leads below the directory |
| FileHandles.DescendingWalkFinishes | source/cppfs/source/FileHandle.cpp:77-125 | a walk whose every opened entry lies below its directory finishes within one level more than the number of known paths above the start |
| FileHandles.WalksFinish | source/cppfs/source/FileHandle.cpp:77-125 | readTree as written finishes on every host whose names are plain entry names; the joining walk on every host without empty names |
| FileHandles.DriveOpensItself | source/cppfs/source/FileHandle.cpp:197-200 | `open("c:")` gives `c:/` from any directory |
| FileHandles.LoopListing | source/cppfs/source/FileHandle.cpp:101 | the directory `c:/` of `LoopHost` exists and lists the one entry `c:` |
| FileHandles.NeverFinishes | source/cppfs/source/FileHandle.cpp:97-121 | any opening that takes the entry `c:` of `c:/` back to `c:/` never finishes on `LoopHost`, whatever the depth |
| FileHandles.DriveEntryNeverFinishes | source/cppfs/source/FileHandle.cpp:101-113 | as written, readTree on `c:/` of `LoopHost` never returns, while the joining walk finishes within one level |
| FileHandles.JoinedLoopHostFinishes | source/cppfs/source/FileHandle.cpp:101-113 | the joining walk on `LoopHost` stops at `c:/c:`, which does not exist |
| FileHandles.MoveFirst | source/cppfs/source/FileHandle.cpp:101 | moving the first remaining name to the done names keeps the whole listing |
| FileHandles.ListedFinishPrefix | source/cppfs/source/FileHandle.cpp:101 | what finishes for a list of names finishes for each of its prefixes |
| FileHandles.NextFinishes | source/cppfs/source/FileHandle.cpp:101-119 | a turn of the loop moves the next name to the done names, which still finish, and adds that name's subtree, if any, to the children |
| FileHandles.FileHandle.constructor | source/cppfs/source/FileHandle.cpp:16-19 | a handle without a backend |
| FileHandles.FileHandle.Of | source/cppfs/source/FileHandle.cpp:21-24 | a handle over the given backend |
| FileHandles.FileHandle.CopyOf | source/cppfs/source/FileHandle.cpp:26-29 | a copy holds a fresh clone on the same file system and path, or none |
| FileHandles.FileHandle.MovedFrom | source/cppfs/source/FileHandle.cpp:31-34 | the backend moves over and the source has none |
| FileHandles.FileHandle.Assign | source/cppfs/source/FileHandle.cpp:40-45 | assignment holds a fresh clone of the other backend, or none |
| FileHandles.FileHandle.Path | source/cppfs/source/FileHandle.cpp:47-50 | the backend's path, empty without one |
| FileHandles.FileHandle.FileName | source/cppfs/source/FileHandle.cpp:52-55 | the file name of the path, empty without a backend |
| FileHandles.FileHandle.UpdateFileInfo | source/cppfs/source/FileHandle.cpp:57-60 | the backend's caches are dropped |
| FileHandles.FileHandle.Exists | source/cppfs/source/FileHandle.cpp:62-65 | the backend's answer, false without one |
| FileHandles.FileHandle.IsFile | source/cppfs/source/FileHandle.cpp:67-70 | the backend's file test, false without one |
| FileHandles.FileHandle.IsDirectory | source/cppfs/source/FileHandle.cpp:72-75 | the backend's directory test, false without one |
| FileHandles.FileHandle.ListFiles | source/cppfs/source/FileHandle.cpp:127-130 | the backend's listing, empty without one |
| FileHandles.FileHandle.Begin | source/cppfs/source/FileHandle.cpp:132-135 | an iterator that yields exactly the listing; the end iterator without a backend |
| FileHandles.FileHandle.End | source/cppfs/source/FileHandle.cpp:137-140 | an iterator without a backend, which is invalid |
| FileHandles.FileHandle.Size | source/cppfs/source/FileHandle.cpp:142-145 | the backend's size, 0 without one |
| FileHandles.FileHandle.AccessTime | source/cppfs/source/FileHandle.cpp:147-150 | the backend's access time, 0 without one |
| FileHandles.FileHandle.ModificationTime | source/cppfs/source/FileHandle.cpp:152-155 | the backend's modification time, 0 without one |
| FileHandles.FileHandle.UserId | source/cppfs/source/FileHandle.cpp:157-160 | the backend's owner id, 0 without one |
| FileHandles.FileHandle.GroupId | source/cppfs/source/FileHandle.cpp:167-170 | the backend's group id, 0 without one |
| FileHandles.FileHandle.Permissions | source/cppfs/source/FileHandle.cpp:177-180 | the backend's permission flags, 0 without one |
| FileHandles.FileHandle.SetUserId | source/cppfs/source/FileHandle.cpp:162-165 | no request without a backend or on Windows, the caches then untouched; otherwise the chown request (new owner, current group as the backend reads it) and both caches emptied, so the next query rereads the file |
| FileHandles.FileHandle.SetGroupId | source/cppfs/source/FileHandle.cpp:172-175 | no request without a backend or on Windows, the caches then untouched; otherwise the chown request (current owner as the backend reads it, new group) and both caches emptied |
| FileHandles.FileHandle.SetPermissions | source/cppfs/source/FileHandle.cpp:182-185 | no request without a backend; otherwise a request iff connected and not on Windows, holding the nine mode bits of the flags, with both caches emptied; without a request the caches are untouched |
| FileHandles.FileHandle.Sha1 | source/cppfs/source/FileHandle.cpp:187-190 | the digest text of the path |
| FileHandles.FileHandle.ParentDirectory | source/cppfs/source/FileHandle.cpp:192-195 | a fresh handle on the same file system at the path resolved with `..` as the code writes it (`ParentTarget`), caches empty; none without a backend |
| FileHandles.FileHandle.Open | source/cppfs/source/FileHandle.cpp:197-200 | a fresh handle on the same file system at the full path of the resolved argument |
| FileHandles.FileHandle.MakeDirectory | source/cppfs/source/FileHandle.cpp:202-218 | succeeds iff there is a backend, the path does not exist and mkdir succeeds; on success both caches are emptied, otherwise the file record is the one read and the link record is kept |
| FileHandles.FileHandle.RemoveDirectory | source/cppfs/source/FileHandle.cpp:220-236 | succeeds iff there is a backend, the path is a directory and removal succeeds; on success both caches are emptied, otherwise the file record is the one read and the link record is kept |
| FileHandles.FileHandle.Remove | source/cppfs/source/FileHandle.cpp:296-312 | succeeds iff there is a backend, the path is a file and removal succeeds; on success both caches are emptied, otherwise the file record is the one read and the link record is kept |
| FileHandles.FileHandle.Rename | source/cppfs/source/FileHandle.cpp:278-294 | succeeds iff there is a backend, the path exists and the rename succeeds, and then the path is the new name in the same directory and both caches are emptied; otherwise path and link record are kept |
| FileHandles.FileHandle.CreateInputStream | source/cppfs/source/FileHandle.cpp:314-324 | the backend's stream, none without one |
| FileHandles.FileHandle.CreateOutputStream | source/cppfs/source/FileHandle.cpp:326-336 | the backend's stream, none without one |
| FileHandles.FileHandle.GenericCopy | source/cppfs/source/FileHandle.cpp:338-372 | succeeds iff both streams are created; success drops the destination's caches |
| FileHandles.FileHandle.GenericMove | source/cppfs/source/FileHandle.cpp:374-384 | a generic copy followed by removing the source; succeeds iff both do |
| FileHandles.FileHandle.Copy | source/cppfs/source/FileHandle.cpp:238-256 | no backend fails; on the same file system the backend's copy, which proceeds exactly when the source is a file (over SSH, with a session open) and then succeeds on POSIX iff the source is readable and the destination (inside the target when that is a directory) is writable, elsewhere as the host answers; otherwise the generic copy, which succeeds exactly when both streams are created |
| FileHandles.FileHandle.Move | source/cppfs/source/FileHandle.cpp:258-276 | the same file system moves internally, leaving the handle at the destination; otherwise a generic move |
| FileHandles.FileHandle.ReadTree | source/cppfs/source/FileHandle.cpp:77-125 | for an opening that agrees with `open` and `fileName` and a depth within which the walk finishes: exactly `TreeOf` of the path; none without a backend |
| FileHandles.FileHandle.ReadExisting | source/cppfs/source/FileHandle.cpp:84-124 | past the existence check: the node read through the handle and, for a directory, its listed children, which is exactly `TreeOf` |
| FileHandles.FileHandle.ReadNode | source/cppfs/source/FileHandle.cpp:84-95 | the node records the tree path and the handle's file name, directory flag, size, times, ids, permissions and SHA-1, leaving the path and cache as they were |
| FileHandles.FileHandle.ReadChildren | source/cppfs/source/FileHandle.cpp:97-121 | the child loop adds exactly the listed children |
| FileHandles.FileHandle.Walk | source/cppfs/source/FileHandle.cpp:101-120 | the iterator loop adds the children of the names still to come after those of the names done |
| FileHandles.FileHandle.Visit | source/cppfs/source/FileHandle.cpp:103-119 | one turn adds the subtree of the current name and moves the iterator on by one name |
| FileHandles.FileHandle.ReadChild | source/cppfs/source/FileHandle.cpp:104-119 | the subtree of the entry `open` gives for the name, none when it does not exist |
| FileHandles.FileHandle.ComposeName | source/cppfs/source/FileHandle.cpp:107-110 | the tree path, a `/` when it is not empty, and the file name |
| FileHandles.FileHandle.ReadOpened | source/cppfs/source/FileHandle.cpp:105-113 | an opened entry that does not exist gives none; otherwise its tree, stored under the composed name |
| StreamBuffer.ToOffset | source/cppfs/source/ssh/SshInputStreamBuffer.cpp:106-133 | a signed offset stored in an unsigned 64-bit value: itself when non-negative, else wrapped |
| StreamBuffer.ToIntType | source/cppfs/source/ssh/SshOutputStreamBuffer.cpp:68-92 | `to_int_type`: a byte value in 0..255, itself when already in range |
| StreamBuffer.Min | source/cppfs/source/ssh/SshInputStreamBuffer.cpp:64-104 | `std::min`: the smaller of the two |
| StreamBuffer.Max | source/cppfs/source/ssh/SshInputStreamBuffer.cpp:64-104 | `std::max`: the larger of the two |
| SshInputStreamBuffer.PutbackOf | source/cppfs/source/ssh/SshInputStreamBuffer.cpp:27 | the putback size is at least 1 and is the requested size when that is positive |
| SshInputStreamBuffer.CapacityOf | source/cppfs/source/ssh/SshInputStreamBuffer.cpp:28 | the buffer holds `max(bufferSize, putback) + putback` bytes: room for the putback area twice over |
| SshInputStreamBuffer.ByteAt | source/cppfs/source/ssh/SshInputStreamBuffer.cpp:94-103 | the byte at a position of the file, or EOF exactly outside it |
| SshInputStreamBuffer.ReadCount | source/cppfs/source/ssh/SshInputStreamBuffer.cpp:90-91 | a read returns at most the size asked, zero exactly at the end of the file or for no room |
| SshInputStreamBuffer.SshInputStreamBuffer.constructor | source/cppfs/source/ssh/SshInputStreamBuffer.cpp:23-54 | the file opens iff connected and readable; an open buffer starts empty at its end, at position 0 |
| SshInputStreamBuffer.SshInputStreamBuffer.Underflow | source/cppfs/source/ssh/SshInputStreamBuffer.cpp:64-104 | corrected as named under Findings: EOF when closed; otherwise the byte at the stream position, refilling only when the get area is used up, keeping up to `putback` bytes in front, and the position does not move |
| SshInputStreamBuffer.SshInputStreamBuffer.Refill | source/cppfs/source/ssh/SshInputStreamBuffer.cpp:79-103 | corrected as named under Findings: the refill branch: the byte at the file offset, with the window laid out after the kept putback bytes |
| SshInputStreamBuffer.SshInputStreamBuffer.ReadBehind | source/cppfs/source/ssh/SshInputStreamBuffer.cpp:89-103 | corrected as named under Findings: reading after `start` kept bytes: the window holds the next bytes of the file |
| SshInputStreamBuffer.SshInputStreamBuffer.KeepPutback | source/cppfs/source/ssh/SshInputStreamBuffer.cpp:83-87 | corrected as named under Findings (only the bytes that exist are moved): the kept bytes at the front are the bytes before the file offset |
| SshInputStreamBuffer.SshInputStreamBuffer.SftpRead | source/cppfs/source/ssh/SshInputStreamBuffer.cpp:91 | the read copies the next file bytes after `start` and leaves the bytes before it alone |
| SshInputStreamBuffer.SshInputStreamBuffer.SeekPos | source/cppfs/source/ssh/SshInputStreamBuffer.cpp:135-152 | -1 when closed; otherwise the position returned is the one asked, the file offset is set and the buffer is emptied |
| SshInputStreamBuffer.SshInputStreamBuffer.SeekOff | source/cppfs/source/ssh/SshInputStreamBuffer.cpp:106-133 | from the start, the end (file size plus offset) or the current position (file offset minus unread bytes plus offset) |
| SshInputStreamBuffer.SshInputStreamBuffer.Bump | source/cppfs/source/ssh/SshInputStreamBuffer.cpp:73-77 | consuming a buffered byte moves the position on by one |
| SshInputStreamBuffer.SshInputStreamBuffer.Unget | source/cppfs/source/ssh/SshInputStreamBuffer.cpp:83-87 | putting back a byte moves the position back by one |
| SshInputStreamBuffer.SshInputStreamBuffer.HoldsJoin | source/cppfs/source/ssh/SshInputStreamBuffer.cpp:83-100 | two adjacent runs that mirror the file mirror it together |
| SshInputStreamBuffer.MoveSourceAsWritten | source/cppfs/source/ssh/SshInputStreamBuffer.cpp:85 | as written the memmove reads from `egptr - putback`, which lies before the buffer iff fewer than `putback` bytes were read |
| SshInputStreamBuffer.ShortFirstReadMovesBeforeBase | source/cppfs/source/ssh/SshInputStreamBuffer.cpp:83-86 | a 5-byte file with the default sizes makes the second underflow copy from 123 bytes before the buffer |
| SshInputStreamBuffer.CorrectedMoveInBounds | source/cppfs/source/ssh/SshInputStreamBuffer.cpp:83-87 | keeping only `min(putback, egptr)` bytes stays inside the buffer and agrees with the code whenever its read was safe |
| SshInputStreamBuffer.EofRefillAsWritten | source/cppfs/source/ssh/SshInputStreamBuffer.cpp:83-96 | as written the putback bytes are moved to the front before the read, also when the read then hits the end |
| SshInputStreamBuffer.EofRefillCorruptsPutback | source/cppfs/source/ssh/SshInputStreamBuffer.cpp:94-97 | with a putback area of 2 and the window 1, 2, 3 read to its end, the refill at end of file leaves 2, 3, 3: the byte two places behind the get pointer is 3 where the file has 2 |
| SshOutputStreamBuffer.FlagsOf | source/cppfs/source/ssh/SshOutputStreamBuffer.cpp:38-40 | the file opens for writing and creation, with append iff `app` and truncation iff `trunc`, never for reading or exclusively |
| SshOutputStreamBuffer.Flat | source/cppfs/source/ssh/SshOutputStreamBuffer.cpp:94-134 | the bytes of a run of writes; nothing for no writes |
| SshOutputStreamBuffer.CapacityOf | source/cppfs/source/ssh/SshOutputStreamBuffer.cpp:26 | the buffer holds `max(bufferSize, 1)` bytes |
| SshOutputStreamBuffer.SshOutputStreamBuffer.constructor | source/cppfs/source/ssh/SshOutputStreamBuffer.cpp:22-52 | opens iff connected and writable, with `FlagsOf(mode)`; an open buffer's put area is the whole buffer, a closed one has none |
| SshOutputStreamBuffer.SshOutputStreamBuffer.Sync | source/cppfs/source/ssh/SshOutputStreamBuffer.cpp:94-134 | the buffered bytes, if any, are written at the file offset and the put area is reset; every accepted byte is then written |
| SshOutputStreamBuffer.SshOutputStreamBuffer.Overflow | source/cppfs/source/ssh/SshOutputStreamBuffer.cpp:68-92 | EOF when closed or when given EOF (after a sync); otherwise syncs, stores the byte first in the buffer and returns it |
| SshOutputStreamBuffer.SshOutputStreamBuffer.PutFirst | source/cppfs/source/ssh/SshOutputStreamBuffer.cpp:82-88 | the byte lands at the start of an empty buffer |
| SshOutputStreamBuffer.SshOutputStreamBuffer.Put | source/cppfs/source/ssh/SshOutputStreamBuffer.cpp:68-92 | `sputc`: an open stream accepts the byte, overflowing when the buffer is full; a closed one refuses it |
| SshOutputStreamBuffer.SshOutputStreamBuffer.SeekPos | source/cppfs/source/ssh/SshOutputStreamBuffer.cpp:168-189 | syncs, then -1 when closed, else the file offset is the position asked |
| SshOutputStreamBuffer.SshOutputStreamBuffer.SeekOff | source/cppfs/source/ssh/SshOutputStreamBuffer.cpp:136-166 | syncs, then seeks from the start, the end or the current file offset |
| SshOutputStreamBuffer.SshOutputStreamBuffer.Close | source/cppfs/source/ssh/SshOutputStreamBuffer.cpp:54-66 | the destructor syncs an open file, so every accepted byte is written |
| SshOutputStreamBuffer.FlatAppend | source/cppfs/source/ssh/SshOutputStreamBuffer.cpp:94-134 | the bytes of two runs of writes are those of the first then the second |
| LinuxFileWatcher.MaskOf | source/cppfs/source/linux/LocalFileWatcher.cpp:49-54 | the inotify mask has IN_CREATE, IN_DELETE, IN_MODIFY, IN_ATTRIB exactly for the requested created, removed, modified, attribute events, and no other bit |
| LinuxFileWatcher.EventOf | source/cppfs/source/linux/LocalFileWatcher.cpp:122-126 | a record's event is the first of created, removed, modified, attribute-changed whose inotify bit is set, else 0 |
| LinuxFileWatcher.EventOfMask | source/cppfs/source/linux/LocalFileWatcher.cpp:49-54 | a record carrying the mask `add` asked for reports the highest-priority event asked for |
| LinuxFileWatcher.TimevalOf | source/cppfs/source/linux/LocalFileWatcher.cpp:97-100 | the timeout in milliseconds becomes whole seconds and microseconds below a second that add up to the same time |
| LinuxFileWatcher.HandleOf | source/cppfs/source/linux/LocalFileWatcher.cpp:58-61 | `inotify_add_watch` gives the descriptor for a watchable path and -1 otherwise |
| LinuxFileWatcher.Registered | source/cppfs/source/linux/LocalFileWatcher.cpp:47-81 | for an opening and a depth within which `add` finishes: `add` never drops a descriptor already watched |
| LinuxFileWatcher.ListedRegistered | source/cppfs/source/linux/LocalFileWatcher.cpp:64-75 | the recursive pass over the directory's entries never drops a descriptor |
| LinuxFileWatcher.EntriesRegistered | source/cppfs/source/linux/LocalFileWatcher.cpp:66-74 | the entries are visited in listing order without dropping a descriptor |
| LinuxFileWatcher.EntriesStep | source/cppfs/source/linux/LocalFileWatcher.cpp:66-74 | one more entry of the listing is one more turn of the loop, which still finishes |
| LinuxFileWatcher.EntryRegistered | source/cppfs/source/linux/LocalFileWatcher.cpp:68-73 | an entry is added recursively only when `open` of its name gives a directory, never dropping a descriptor |
| LinuxFileWatcher.RegisteredExtends | source/cppfs/source/linux/LocalFileWatcher.cpp:47-81 | after `add` every entry is either kept or records the added path or a directory, with the add's events and mode |
| LinuxFileWatcher.ListedExtends | source/cppfs/source/linux/LocalFileWatcher.cpp:64-75 | the same for the recursive pass |
| LinuxFileWatcher.EntriesExtend | source/cppfs/source/linux/LocalFileWatcher.cpp:66-74 | the same for a run of entries |
| LinuxFileWatcher.EntryExtends | source/cppfs/source/linux/LocalFileWatcher.cpp:69-73 | the same for one entry |
| LinuxFileWatcher.NotRecursiveRegistersOne | source/cppfs/source/linux/LocalFileWatcher.cpp:58-80 | without recursion `add` finishes at once and stores exactly one watcher, under the path's descriptor, or nothing when the watch fails |
| LinuxFileWatcher.RegisteredStoresPath | source/cppfs/source/linux/LocalFileWatcher.cpp:77-80 | a successful `add` stores the path, events and mode under its descriptor, overriding what the recursion stored there |
| LinuxFileWatcher.RegisteredAnyDepth | source/cppfs/source/linux/LocalFileWatcher.cpp:47-81 | the watch table does not depend on the depth bound: any two depths within which `add` finishes give the same table |
| LinuxFileWatcher.EntriesAnyDepth | source/cppfs/source/linux/LocalFileWatcher.cpp:66-74 | the same for a run of entries |
| LinuxFileWatcher.DescendingAddFinishes | source/cppfs/source/linux/LocalFileWatcher.cpp:47-81 | an `add` whose every opened entry lies below its directory finishes within one level more than the number of known paths above the start |
| LinuxFileWatcher.AddsFinish | source/cppfs/source/linux/LocalFileWatcher.cpp:47-81 | `add` as written finishes on every host whose names are plain entry names; the joining `add` on every host without empty names |
| LinuxFileWatcher.NeverAdded | source/cppfs/source/linux/LocalFileWatcher.cpp:64-75 | any opening that takes the entry `c:` of `c:/` back to `c:/` never finishes a recursive `add` of `c:/` on `LoopHost` that inotify accepts |
| LinuxFileWatcher.DriveEntryNeverAdded | source/cppfs/source/linux/LocalFileWatcher.cpp:64-75 | as written, a recursive `add` of `c:/` on `LoopHost` never returns, while the joining `add` finishes within one level |
| LinuxFileWatcher.JoinedLoopHostAdded | source/cppfs/source/linux/LocalFileWatcher.cpp:64-75 | the joining `add` on `LoopHost` stops at `c:/c:`, which is no directory |
| LinuxFileWatcher.WatcherOf | source/cppfs/source/linux/LocalFileWatcher.cpp:129 | `m_watchers[wd]`: the stored watcher, or the default one for an unknown descriptor |
| LinuxFileWatcher.HandleFor | source/cppfs/source/linux/LocalFileWatcher.cpp:132 | `watcher.dir.open(name)`: the path `open` gives below the watched directory, none without one |
| LinuxFileWatcher.Step | source/cppfs/source/linux/LocalFileWatcher.cpp:117-144 | a record without a name is skipped; one with a name delivers one event with `EventOf` its mask and the handle `open` gives for its name below the watched directory (none for an unknown descriptor), after what was delivered before, and keeps its descriptor in the table |
| LinuxFileWatcher.ProcessPrefix | source/cppfs/source/linux/LocalFileWatcher.cpp:115-145 | decoding one more record is one more `Step`, which still finishes |
| LinuxFileWatcher.ProcessDelivers | source/cppfs/source/linux/LocalFileWatcher.cpp:115-145 | processing the records read delivers exactly one event per named record, after what was delivered before |
| LinuxFileWatcher.SpanGrows | source/cppfs/source/linux/LocalFileWatcher.cpp:144 | each record moves the read offset on by the header size plus its name length |
| LinuxFileWatcher.SpanMonotone | source/cppfs/source/linux/LocalFileWatcher.cpp:117-145 | the offset of a record never passes the size read |
| LinuxFileWatcher.LocalFileWatcher.constructor | source/cppfs/source/linux/LocalFileWatcher.cpp:20-27 | a watcher with its owner, file system and inotify instance and no watches |
| LinuxFileWatcher.LocalFileWatcher.Add | source/cppfs/source/linux/LocalFileWatcher.cpp:47-81 | for an opening that agrees with `open` and a depth within which `add` finishes: the watches become `Registered` of the old ones |
| LinuxFileWatcher.LocalFileWatcher.AddListed | source/cppfs/source/linux/LocalFileWatcher.cpp:64-75 | the loop over the directory's entries, as `ListedRegistered` |
| LinuxFileWatcher.LocalFileWatcher.AddEntry | source/cppfs/source/linux/LocalFileWatcher.cpp:68-73 | one turn of that loop: the entry `open` gives is added when it is a directory, as `EntryRegistered` |
| LinuxFileWatcher.LocalFileWatcher.Watch | source/cppfs/source/linux/LocalFileWatcher.cpp:83-146 | nothing happens on a timeout or failed read; otherwise, when the adds the records make finish within the depth, the watches and deliveries are `Process` of the records read |
| FileEvents.HookOf | source/cppfs/source/FileEventHandler.cpp:19-28 | created wins over removed, removed over modified; attribute changes and other events call no hook |
| FileEvents.SingleEventsReachTheirHook | source/cppfs/source/FileEventHandler.cpp:19-40 | each single event reaches its own hook and an attribute change none |
| FileEvents.FileEventHandler.constructor | source/cppfs/source/FileEventHandler.cpp:11-13 | a plain handler, not the functional one |
| FileEvents.FileEventHandler.Functional | source/cppfs/source/FunctionalFileEventHandler.cpp:9-16 | a functional handler, with or without a function |
| FileEvents.FileEventHandler.OnFileEvent | source/cppfs/source/FunctionalFileEventHandler.cpp:22-28 | a plain handler dispatches by `HookOf`; a functional one calls its function for every event iff it has one |
| FileWatchers.Without | source/cppfs/source/FileWatcher.cpp:101-109 | removing a handler takes one occurrence out and keeps only handlers that were there |
| FileWatchers.WithoutAt | source/cppfs/source/FileWatcher.cpp:101-109 | it is the first occurrence that `erase(find(...))` takes out, the order of the rest kept |
| FileWatchers.WithoutDistinct | source/cppfs/source/FileWatcher.cpp:78-109 | in a list without duplicates, removal leaves exactly the other handlers |
| FileWatchers.Round | source/cppfs/source/FileWatcher.cpp:122-128 | an event reaches every handler once, in registration order, with the same file |
| FileWatchers.Notified | source/cppfs/source/FileWatcher.cpp:111-128 | the calls of a watch are one round per delivered event |
| FileWatchers.NotifiedEach | source/cppfs/source/FileWatcher.cpp:111-128 | the call for the k-th event and j-th handler sits at position k times the number of handlers plus j and is that handler's hook for that event |
| FileWatchers.FileWatcher.constructor | source/cppfs/source/FileWatcher.cpp:16-24 | a backend exists iff the file system is the local POSIX one; no handlers |
| FileWatchers.FileWatcher.MovedFrom | source/cppfs/source/FileWatcher.cpp:26-35 | the new watcher takes the backend and handlers and the old one is left empty |
| FileWatchers.FileWatcher.MoveAssign | source/cppfs/source/FileWatcher.cpp:41-55 | the same by assignment; nothing changes on self-assignment |
| FileWatchers.FileWatcher.Fs | source/cppfs/source/FileWatcher.cpp:57-60 | the backend's file system, or none without a backend |
| FileWatchers.FileWatcher.Add | source/cppfs/source/FileWatcher.cpp:62-76 | the directory's info is read; only a directory on the watcher's own file system is forwarded, and the backend's table then becomes `Registered` of the code as written (for a depth within which that `add` finishes) |
| FileWatchers.FileWatcher.Find | source/cppfs/source/FileWatcher.cpp:80-81 | `std::find`: the first position of the handler, or the end iff it is absent |
| FileWatchers.FileWatcher.AddHandler | source/cppfs/source/FileWatcher.cpp:78-87 | a handler not yet registered is appended; a null or registered one changes nothing |
| FileWatchers.FileWatcher.AddFunctionHandler | source/cppfs/source/FileWatcher.cpp:89-99 | a new functional handler is owned and appended |
| FileWatchers.FileWatcher.RemoveHandler | source/cppfs/source/FileWatcher.cpp:101-109 | the handler's first occurrence is taken out |
| FileWatchers.FileWatcher.OnFileEvent | source/cppfs/source/FileWatcher.cpp:122-128 | the calls are `Round` of the handlers |
| FileWatchers.FileWatcher.Watch | source/cppfs/source/FileWatcher.cpp:111-120 | nothing without a backend; otherwise the backend's watch, and every delivered event notifies every handler |
| FileWatchers.FileWatcher.Notify | source/cppfs/source/FileWatcher.cpp:122-128 | the calls for a run of deliveries are `Notified` |
| FileVisitors.Empty | source/cppfs/source/FunctionalFileVisitor.cpp:11-13 | a functional visitor with no function |
| FileVisitors.ForEntries | source/cppfs/source/FunctionalFileVisitor.cpp:15-18 | a functional visitor with only the entry function |
| FileVisitors.ForFilesAndDirectories | source/cppfs/source/FunctionalFileVisitor.cpp:20-24 | a functional visitor with only the file and directory functions |
| FileVisitors.OnFile | source/cppfs/source/FunctionalFileVisitor.cpp:50-58 | the base visitor accepts; a functional one returns its file function's answer, or false without one |
| FileVisitors.OnDirectory | source/cppfs/source/FunctionalFileVisitor.cpp:60-68 | the same for directories |
| FileVisitors.OnFileEntry | source/cppfs/source/FunctionalFileVisitor.cpp:30-48 | the entry function wins; otherwise directories go to `OnDirectory`, files to `OnFile`, and anything else is refused by a functional visitor |
| FileVisitors.BaseAcceptsAll | source/cppfs/source/FileVisitor.cpp:19-40 | the base visitor accepts every entry without calling anything |
| FileVisitors.CalleeIsSet | source/cppfs/source/FunctionalFileVisitor.cpp:30-68 | a function is only called when it is set and matches the entry, and its answer is the result |
| FileVisitors.MissingEntry | source/cppfs/source/FileVisitor.cpp:19-30 | an entry that is neither file nor directory goes to the base `onFile` but is refused by the functional visitor |
| FileVisitors.EntryFunctionWins | source/cppfs/source/FunctionalFileVisitor.cpp:30-36 | with an entry function, it is the one called |
| DirectoryTraversal.Child | source/cppfs/source/directorytraversal.cpp:36 | an entry's path is the directory, one slash and the name |
| DirectoryTraversal.ReachShrinks | source/cppfs/source/directorytraversal.cpp:62-65 | descending into a longer path leaves strictly fewer directories to open, so the recursion ends |
| DirectoryTraversal.NeverBoth | source/cppfs/source/directorytraversal.cpp:38-59 | no entry is classified as both a file and a directory, the assertion at line 59 |
| DirectoryTraversal.FilesOf | source/cppfs/source/directorytraversal.cpp:21-76 | nothing for a directory that does not open; every file collected lies below the directory |
| DirectoryTraversal.ReachedLonger | source/cppfs/source/directorytraversal.cpp:61-65 | a directory the traversal reaches is at least as long as the one it started from |
| DirectoryTraversal.FilesOfRecursive | source/cppfs/source/directorytraversal.cpp:21-76 | a recursive traversal collects a path iff it is the path of a file entry of a directory reached through entries other than `.` and `..` |
| DirectoryTraversal.FilesSound | source/cppfs/source/directorytraversal.cpp:21-76 | every file collected recursively is a file entry of a reached directory |
| DirectoryTraversal.EntriesSound | source/cppfs/source/directorytraversal.cpp:32-72 | the same for what a run of entries collects |
| DirectoryTraversal.EntrySound | source/cppfs/source/directorytraversal.cpp:34-71 | the same for what one entry collects |
| DirectoryTraversal.FilesComplete | source/cppfs/source/directorytraversal.cpp:21-76 | every file entry of a reached directory is collected |
| DirectoryTraversal.EntriesContain | source/cppfs/source/directorytraversal.cpp:32-72 | what one entry collects is among what the run of entries holding it collects |
| DirectoryTraversal.EntriesFiles | source/cppfs/source/directorytraversal.cpp:32-72 | the entries' files, in readdir order, all below the directory |
| DirectoryTraversal.EntryFiles | source/cppfs/source/directorytraversal.cpp:34-71 | without recursion an entry adds its path iff it is a file; nothing it adds lies outside the directory |
| DirectoryTraversal.FilesOfAllBelow | source/cppfs/source/directorytraversal.cpp:87-98 | every file collected from several directories lies below one of them |
| DirectoryTraversal.GetFilesInto | source/cppfs/source/directorytraversal.cpp:21-76 | the directory's files are appended, in order, to the files passed in |
| DirectoryTraversal.AddEntry | source/cppfs/source/directorytraversal.cpp:34-71 | one turn of the readdir loop appends `EntryFiles` |
| DirectoryTraversal.GetFiles | source/cppfs/source/directorytraversal.cpp:78-85 | exactly `FilesOf`, all below the directory; recursively, a path is collected iff it is a file entry of a directory reached through entries other than `.` and `..` |
| DirectoryTraversal.GetFilesOfAll | source/cppfs/source/directorytraversal.cpp:87-98 | the files of each directory in turn, directories in input order |
| DirectoryTraversal.Sanitized | source/cppfs/source/directorytraversal.cpp:102 | one trailing slash is dropped, any other directory is kept |
| DirectoryTraversal.Filtered | source/cppfs/source/directorytraversal.cpp:108-117 | a file is kept iff the filter is `*` or the extension of its unified path (backslashes read as `/`) equals the filter, in order, never more files than given |
| DirectoryTraversal.FilterStar | source/cppfs/source/directorytraversal.cpp:112 | the filter `*` keeps every file |
| DirectoryTraversal.ScanDirectory | source/cppfs/source/directorytraversal.cpp:100-120 | the filtered files below the sanitized directory, each below it and with the extension of its unified path passing the filter |
| DirectoryTraversal.FilterExtension | source/cppfs/source/directorytraversal.cpp:108-117 | the loop computes `Filtered`, taking each extension from the unified path |
| DirectoryTraversal.BackslashSeparatesExtension | source/cppfs/source/directorytraversal.cpp:110-112 | `d/a.b\c` has file name `c` and no extension: the filter `""` keeps it and `.b\c` does not |
| Fs.Open | source/cppfs/source/fs.cpp:25-37 | a fresh handle on the local file system for the URL's path part, credentials unused |
| Fs.SshUrlOpensLocalPath | source/cppfs/source/fs.cpp:27-36 | an ssh URL opens its path on the local file system |
| Fs.HexDigit | source/cppfs/source/fs.cpp:59 | `std::hex` writes lowercase digits |
| Fs.DigitValue | source/cppfs/source/fs.cpp:59 | a digit's value is below 16 |
| Fs.DigitRoundTrip | source/cppfs/source/fs.cpp:59 | a written digit reads back as its value |
| Fs.Hex | source/cppfs/source/fs.cpp:62 | a byte takes one digit below 16, two from 16 on, with no leading zero |
| Fs.Formatted | source/cppfs/source/fs.cpp:59-62 | with a width the field is the wider of the width and the digits |
| Fs.FormattedPads | source/cppfs/source/fs.cpp:59 | `setfill('0')` pads on the left with zeros |
| Fs.FormattedTwo | source/cppfs/source/fs.cpp:59-62 | with width 2 every byte takes its high and low digit |
| Fs.FormattedZero | source/cppfs/source/fs.cpp:62 | after the width is reset a byte takes only its own digits |
| Fs.ByteOfDigits | source/cppfs/source/fs.cpp:59-62 | a byte's two digits read back as the byte |
| Fs.Unpadded | source/cppfs/source/fs.cpp:61-63 | unpadded bytes take between one and two characters each |
| Fs.HashText | source/cppfs/source/fs.cpp:57-66 | fully padded bytes take exactly two characters each |
| Fs.HashTextAsWritten | source/cppfs/source/fs.cpp:57-66 | as written the text of n bytes is n + 1 to 2n characters long |
| Fs.HashToStringAsWritten | source/cppfs/source/fs.cpp:57-66 | the loop as written: width 2 for the first insertion, 0 after; 21 to 40 characters |
| Fs.WrittenPrefix | source/cppfs/source/fs.cpp:61-63 | after n insertions the stream holds the as-written text of the first n bytes |
| Fs.WrittenStep | source/cppfs/source/fs.cpp:61-63 | each insertion after the first is unpadded |
| Fs.HashToString | source/cppfs/source/fs.cpp:57-66 | with the width set for every byte the text is always 40 characters, two per byte |
| Fs.HashTextStep | source/cppfs/source/fs.cpp:61-63 | each insertion adds the byte's two digits |
| Fs.UnpaddedStep | source/cppfs/source/fs.cpp:61-63 | each unpadded insertion adds the byte's bare digits |
| Fs.Unhex | source/cppfs/source/fs.cpp:57-66 | reading two digits at a time gives half as many bytes as characters |
| Fs.HashTextRoundTrip | source/cppfs/source/fs.cpp:57-66 | the padded text reads back as the digest |
| Fs.HashTextInjective | source/cppfs/source/fs.cpp:57-66 | different digests give different padded texts |
| Fs.UnpaddedAppend | source/cppfs/source/fs.cpp:61-63 | the unpadded text of two runs is the text of one then the other |
| Fs.AsWrittenCollides | source/cppfs/source/fs.cpp:57-66 | as written, two different digests give the same text |
| Credentials.ValueOf | source/cppfs/source/LoginCredentials.cpp:46-56 | the stored string, or the empty string for a key never set |
| Credentials.SetThenRead | source/cppfs/source/LoginCredentials.cpp:41-61 | after `setValue` the key is set and reads back the value, and every other key reads as before |
| Credentials.LoginCredentials.constructor | source/cppfs/source/LoginCredentials.cpp:9-11 | an empty store |
| Credentials.LoginCredentials.CopyOf | source/cppfs/source/LoginCredentials.cpp:13-21 | both copy and const-move construction copy the whole map |
| Credentials.LoginCredentials.Assign | source/cppfs/source/LoginCredentials.cpp:27-39 | both assignments copy the whole map and leave the source as it was |
| Credentials.LoginCredentials.IsSet | source/cppfs/source/LoginCredentials.cpp:41-44 | true iff the key has a value |
| Credentials.LoginCredentials.Value | source/cppfs/source/LoginCredentials.cpp:46-56 | the stored string, or the empty string for an unset key |
| Credentials.LoginCredentials.SetValue | source/cppfs/source/LoginCredentials.cpp:58-61 | the key is inserted or overwritten and no other key changes |

## Left out

- Time, memory and error reporting: the messages printed on failure (`getFiles`, SSH `sync`) are not modelled. Allocation failure is not modelled.
- Concurrency: watchers and SSH sessions are used from one thread only.
- The SHA-1, base64 and `fromBase64` computations are foreign code; a digest is an answer of the host.
- `fs::open` keeps a static `LocalFileSystem`; here that file system is the parameter `local`. `FileHandle::fs()` is declared but not defined in the shipped sources, so two handles are on the same file system when their backends carry the same `FileSystem` value.
- `FilePath::toNative` and the Windows file watcher backend are not part of this model.
- `FunctionalFileEventHandler` and `FunctionalFileVisitor` call user functions. Their effects are not modelled: the model states which function is called and takes its answer as a parameter.
- The `scanDirectory` overload with a callback calls the callback once per file of `DirectoryTraversal.ScanDirectory`, in that order; it is not a separate member.
- `getFiles` recursion over symbolic links that form a cycle is not modelled. A directory maps to its entries and a traversal only descends into longer paths.
- `FileHandles.FileHandle.ReadTree`: the method takes a ghost depth and requires that the walk finishes within it (`FileHandles.Finishes`). That holds for some depth exactly when the recursion of the source returns; where it never returns (`FileHandles.DriveEntryNeverFinishes`) the model promises nothing. `FileHandles.WalksFinish` gives a sufficient depth for hosts with plain entry names.
- `FileHandles.FileHandle.ReadTree`: the ghost opening `o` stands for the `open` and `fileName` of the handle; it must agree with them (`FileHandles.OpensAsWritten`), as the code's own opening does (`FileHandles.ResolvingOpensAsWritten`). It keeps the tree functions apart from path resolution; the tree is the same as with `open` and `fileName` themselves.
- `LinuxFileWatcher.LocalFileWatcher.Add`: the method takes a ghost depth and requires that the recursion finishes within it (`LinuxFileWatcher.AddFinishes`), which holds for some depth exactly when the recursion of the source returns; `LinuxFileWatcher.DriveEntryNeverAdded` shows a host where it never does. Its ghost opening stands for the handle's `open`, as for `readTree`.
- `LinuxFileWatcher.LocalFileWatcher.Watch`: the recursive adds the records trigger must finish within the ghost depth (`LinuxFileWatcher.ProcessFinishes`); a watch whose add never returns is not modelled.
- `FileWatchers.FileWatcher.Add`: the forwarded add must finish within the ghost depth, as for the backend's `add`.
- `FileWatchers.FileWatcher.Watch`: the adds the records trigger must finish within the ghost depth, as for the backend's `watch`.
- `LinuxFileWatcher.LocalFileWatcher.Add`: the inotify descriptor of each path is fixed when the watcher is created (the map `inotify`), rather than handed out by the kernel at each `inotify_add_watch`.
- `LinuxFileWatcher.LocalFileWatcher.Watch`: the raw byte buffer is a sequence of decoded records, and records that straddle the read size are not modelled.
- `FileWatchers.FileWatcher.MovedFrom`: a moved-from `std::vector` is only valid but unspecified in C++; the model empties it.
- `FileWatchers.FileWatcher.MoveAssign`: self-move assignment is modelled as changing nothing.
- `FileHandles.FileHandle.Copy` and `FileHandles.FileHandle.Move` require a destination backend. The source dereferences it without a check, so a null destination is undefined behaviour.
- `SshInputStreamBuffer.SshInputStreamBuffer.Underflow`: the host answers each `sftp_read` with data or end of file. A read error is not modelled; the source would pass its negative count on to `setg`.
- `SshFileHandle.ReadLinkInfoAsWritten`: when the file record has not been read yet, the source hands a null record to `libssh2_sftp_stat_ex`. What the library does with it is not modelled; the model takes the answer as lost: the file record stays empty and the link record is the new, unwritten block.
- `Backend.FileHandleBackend.ReadLinkInfo`: over SSH it follows `SshFileHandle.ReadLinkInfoAsWritten`, including its reading of the null file record.
- `Backend.FileHandleBackend.IsSymbolicLink`: over SSH on a handle whose file record is empty, the answer rests on that same reading of the null record and is the test of an unwritten block.
- `HandlePaths.ParentKeepsRoot`: only "absolute stays rooted" holds for the code as written; a relative path such as `.//x/y` can get a rooted parent (`HandlePaths.ParentOfRelativeBecomesRooted`). The iff holds for the corrected `HandlePaths.CollapsedParentTarget`.
- `FileWatchers.FileWatcher.Watch`: the handlers are called after the backend has processed all records read, not interleaved with each record; the events delivered and their order are the same.
- `SshOutputStreamBuffer.SshOutputStreamBuffer.Sync`: `sftp_write` is taken to write every byte; partial writes and write errors are not modelled. A buffer whose file did not open has no put area; the null-pointer arithmetic of the source is not modelled.
- `FileHandles.FileHandle.CreateInputStream` and `FileHandles.FileHandle.CreateOutputStream`: the stream is a value naming the file and whether it opened, not a live stream object; reading and writing through it are modelled by the SSH stream buffers only.
- `load` and `save` of `LoginCredentials` are declared in `LoginCredentials.h` but not defined, and `value` returns a reference there but a copy in the source file; the model follows the source file.
- `FileWatchers.FileWatcher.Add`: `FileWatcher.h` declares `add(const FileHandle &, unsigned int)` and `watch()`, while the source file defines `add(FileHandle &, unsigned int, RecursiveMode)` and `watch(int)`; the model follows the source file.

## Findings

| source | as written | input that shows it | evidently intended | confidence | as-written member | corrected member |
|---|---|---|---|---|---|---|
| source/cppfs/source/FilePath.cpp:284-318 | an empty part between two separators is pushed as a name, so a following `..` removes it | `/usr/bin//../bin/bash` resolves to `/usr/bin/bin/bash`, and `.//x` to the rooted `/x`; `parentDirectory` (FileHandle.cpp:192-195) inherits it: the parent of `.//x/y` is `/x` | empty parts are skipped, as the unit test expecting `/usr/bin/bash` assumes | high, not executed | FilePath.ResolvedDoubleSeparator | FilePath.CollapsedLeadingSeparator |
| source/cppfs/source/fs.cpp:57-66 | `setw(2)` applies to the first insertion only, so later bytes below 16 lose their leading zero | the digests `00 12 03 00…` and `00 01 23 00…` both give `00123` followed by zeros | every byte written as two digits, 40 characters for a SHA-1 digest | high, not executed | Fs.AsWrittenCollides | Fs.HashTextInjective |
| source/cppfs/source/ssh/SshFileHandle.cpp:98-136 | the type tests use `permissions & S_IFxxx`, which is true when any bit of the type value is set | a socket (0140000) passes both the file and the directory test; a symbolic link passes the file test | compare `permissions & S_IFMT` with the type value | high, not executed | SshFileHandle.BitwiseTestsMisclassify | SshFileHandle.TypeFieldTestsExclusive |
| source/cppfs/source/ssh/SshFileHandle.cpp:674 | `readLinkInfo` allocates `m_linkInfo` but passes `m_fileInfo` as the record the lstat call fills, so the link record stays uninitialised; when the file record has not been read, that record is a null pointer | a link to a regular file with its file record cached: `isSymbolicLink` reads the untouched record and the file record now describes the link | write the lstat answer into `m_linkInfo` | high, not executed | SshFileHandle.LinkInfoLandsInFileRecord | SshFileHandle.ReadLinkInfo |
| source/cppfs/source/windows/LocalFileIterator.cpp:40-50 | `clone` replays `readNextEntry` up to the original's index, but the index does not advance when the search ends | an exhausted search over `.`, `..`, `a`: the original is at its end but the clone stops on `a` and is valid | the clone is at its end too | medium, not executed | Iterators.ExhaustedCloneIsValid | Iterators.CorrectedCloneIsExact |
| source/cppfs/source/ssh/SshInputStreamBuffer.cpp:83-87 | the putback bytes are moved from `egptr() - putback`, which lies before the buffer when fewer than `putback` bytes were read | a 5-byte file with the default sizes: the second underflow copies from 123 bytes before the buffer | move only the `min(putback, egptr() - eback())` bytes that exist | high, not executed | SshInputStreamBuffer.ShortFirstReadMovesBeforeBase | SshInputStreamBuffer.CorrectedMoveInBounds |
| source/cppfs/source/ssh/SshInputStreamBuffer.cpp:83-97 | the putback bytes are moved to the front before the read, also when the read then reports end of file and the get area is left as it was | a putback area of 2 and a 3-byte file whose bytes 1, 2, 3 fill the window, read to its end: the refill at end of file turns the buffer into 2, 3, 3, so the first `unget` still yields 3 but the second yields 3 where the file has 2 (in general only the ungets that reach below index `putback` see a wrong byte) | move the putback bytes only when the read returns data | high, not executed | SshInputStreamBuffer.EofRefillCorruptsPutback | SshInputStreamBuffer.SshInputStreamBuffer.Refill |
| source/cppfs/source/FileHandle.cpp:101-113 | `open(*it)` resolves each listed name as a path; a name the path code takes as absolute, such as the POSIX entry name `c:`, which it reads as a drive, opens a path that is not below the listed directory, and the recursion can start over | a POSIX directory `c:/` that lists one entry named `c:` (`FileHandles.LoopHost`): `open("c:")` gives `c:/` again, so `readTree` never returns | each listed entry is opened below the directory that lists it, and the walk then ends on every host | medium, not executed | FileHandles.DriveEntryNeverFinishes | FileHandles.WalksFinish |
| source/cppfs/source/linux/LocalFileWatcher.cpp:64-75 | the recursive `add` opens each listed name with `dir.open(*it)`, which resolves it as a path in the same way | the same directory `c:/`, when inotify accepts it, added recursively: the entry `c:` opens `c:/`, a directory, and `add` starts over without end | each listed entry is opened below the directory, and the recursive add then ends on every host | medium, not executed | LinuxFileWatcher.DriveEntryNeverAdded | LinuxFileWatcher.AddsFinish |
| source/cppfs/source/posix/LocalFileHandle.cpp:357-368 | the output stream, which truncates the destination, is opened before anything is read from the source; when the destination is the source file itself, its contents are gone before they are read, and `copy` still reports success | copying a file `f` that holds `abc` onto `f` leaves `f` empty | a copy onto the file itself leaves it as it was | high, not executed | PosixFileHandle.SelfCopyEmpties | PosixFileHandle.Copied |
