# Verified model of the checkpoint agent and of the training, translation, renaming and colour scripts

This Dafny project models the parts of the repository whose correctness depends on state, order and
failure, and proves what they are for. `dafny verify dfyconfig.toml` checks all of it.

**The checkpoint agent** (`backend/cmd/checkpoint-agent/main.go`) moves finished checkpoints from a
staging directory to their final place and tells a backend about it.

- `Trees` and `Disks` give an abstract file system: a map from absolute location to directory or file,
  and a class `Disk` whose calls work, fail, or are cut short by a crash. A crashed or failing call may
  leave any state its system call can leave: a torn file, some of the directories to be made, part of a
  tree that was being removed (unless `atomicRemoval`). While `faulty` is not set, calls fail only for
  what is on the disk.
- `CleanPath`, `Destinations` and `Manifests` are the pure part: path cleaning, destinations, storage
  paths, the final manifest, and the rewriting of manifests that are already in place.
- `Copying` and `Agents` follow the code from `copyFile` up to `processManifest`, branch by branch.
  `Commits` says what one attempt can leave (`AttemptLeaves`), what a successful one leaves
  (`Apply`), and when two commits commute. `Runs` takes any number of attempts with crashes, faults
  and changing process ids, and `Durability` asks how long an announced checkpoint stays restorable.
- `Rewriting` visits a checkpoint that lies in place again and again.
- `Staging` says what lies in the staging directory and what an attempt there leaves alone. `Walks`
  turns a walk into the commits and rewrites it asks for, in whatever order. `Polling` is `processStaging` and the
  loop around it, with a job that writes into the staging directory at the same time, a memory of
  `(path, modification time)` and restarts that empty it.

**Checkpointed training** (two scripts in `backend/hack`): `Training` is momentum gradient descent on
an optimiser state that is updated in place, with a cyclic data cursor; `Checkpoints` saves and loads
it in the file layout and the directory layouts of both scripts.

**Translation files** (two scripts in `frontend/hack`): `Translations` has the two lookup styles, the
collection of keys, nesting and flattening; `Formatting` has the check mode and the write mode.

**File renaming** (`frontend/hack/refactor_filenames.py`): `KebabCase` converts names, `Renaming` plans
the renames bottom-up and carries them out one by one.

**Colours** (`frontend/hack/convert_index_css.py`): `Colour` proves the conversion to HSL and the one of
section 7.1 of CSS Color Module Level 4 inverse to each other in exact reals.

## What the proofs brought to light

- After a pass without error an eligible manifest that was due when the pass began has had its `committed`
  event accepted if and only if its marker was there when it was read, provided only that nobody rewrote
  this one manifest before (`Polling.CommittedIfUnchanged`); all else may have been written meanwhile. A
  manifest that is read too early is remembered as done: if the marker then arrives without a new version of
  the manifest this process never commits the checkpoint, a file or a directory
  (`Polling.Poller.LateMarker`); a restart, which empties the memory, makes up for it
  (`Polling.Poller.LateMarkerThenRestart`). A job that writes the marker first gets every commit
  (`Polling.MarkersFirstDeliver`). A marker is also missed when looking for it fails for another reason,
  because every error of that `os.Stat` counts as absence; hence `statsReliable`, and `missed` in a record.
- An error ends the walk. A torn manifest, or one whose checkpoint is missing, keeps everything listed behind
  it from being committed, pass after pass (`Polling.Poller.StuckBehind`).
- For a file checkpoint the marker is a sibling of the data, so an old marker survives while the data is
  replaced (`Commits.StaleMarker`): it proves the data exactly where there was none before
  (`Commits.MarkerTellsExactly`).
- An announced checkpoint is not safe from the agent itself. After a restart the same manifest is committed
  again, and a process that dies between removing the old data and its rename leaves the destination
  empty until some later attempt succeeds (`Durability.AnnounceLoseRecover`).
- The in-place branch does not look at the status: a staged manifest there is announced as committed
  and stays staged on disk exactly when its three paths are already right (`Agents.AnnounceInPlace`), and
  wherever checkpoints lie in place there are such manifests (`Manifests.StagedStaysStaged`).
- `cleanRelativePath` is not idempotent, because it trims before it cleans. It is so exactly when its
  first answer has no outer white space (`CleanPath.CleanRelativePathTwice`).
- Slashes inside job or checkpoint names let two checkpoints share a destination
  (`Destinations.SlashedNamesCollide`); a destination is what the names say exactly when both are single
  path components (`Destinations.JobLayoutExactly`).
- The rename plan needs more than distinct final names: extensions keep their capitals, so a file can be
  renamed onto the present name of a directory that is still waiting for its turn
  (`Renaming.FileOntoDirectory`). `Renaming.RenamesConvert` has the exact condition.
- The documentation string of `create_nested_dict_from_keys` says that dotted keys stay flat; the code
  keeps them flat only when the defaults have them. Nesting and flattening undo each other exactly when
  no key's place is a beginning of another's (`Translations.NestThenFlatten`).
- A checkpoint whose state was changed after the save is loaded exactly when the new state has the checksum
  of the saved one and carries it (`Checkpoints.LoadedExactlyIfCovered`); nothing is asked of the checksum
  function. It leaves out the epoch and the seed (`Checkpoints.EpochIsNotChecked`); the first step
  afterwards puts the epoch right, and training never looks at the seed
  (`Checkpoints.UncoveredFieldsHeal`).
- After a save that is cut short the state that is loaded is the old or the new one, as far as the checksum
  covers it, except that in the directory layouts of the second script, which writes the manifest first,
  an old state can pass for the new one if their checksums collide (`Checkpoints.CutShortSaveIsSafe`).
  The manifest beside it can be the other one's if it has the same checksum (`Checkpoints.CutShortLoads`).
- The files laid out for DeepSpeed have no velocity of the bias; only the trainer state restores it
  (`Checkpoints.OwnFilesTell`).
- A checkpoint that lies below its own destination can be committed: the data takes its place
  (`Commits.BelowIsCopyable`). One that lies above its destination cannot, because the copy would have to
  copy its own temporary path.

## Model

| member | source | states |
|---|---|---|
| CleanPath.CleanRelativePathMeans | backend/cmd/checkpoint-agent/main.go:267-277 | The answer is empty exactly when the trimmed, slash-normalised input is blank, absolute, climbs above its base at some point, or leads back to the base; otherwise it has proper names only and leads, from every base, to the place the input leads to. |
| CleanPath.CleanRelativePathTwice | backend/cmd/checkpoint-agent/main.go:267-277 | Cleaning a second time changes nothing if and only if the first answer is empty or has no outer white space. |
| CleanPath.CleanRelativePathTwiceByParts | backend/cmd/checkpoint-agent/main.go:267-277 | Told on the input: it changes something exactly when the input leads to somewhere properly below its base, by a way whose first name begins with white space or whose last name ends with it. |
| CleanPath.CleanRelativePathNotIdempotent | backend/cmd/checkpoint-agent/main.go:267-277 | A concrete input whose second cleaning differs from its first. |
| CleanPath.CleanRelativePathShrinks | backend/cmd/checkpoint-agent/main.go:267-277 | A non-empty answer that differs from its input is shorter, or equally long with fewer backslashes. |
| Destinations.FinalPathOfPlainNames | backend/cmd/checkpoint-agent/main.go:238-251 | With single-component names a destination is the final directory plus exactly job and name, or name alone in flat layout; the fallbacks for empty names included. |
| Destinations.FinalPathPlain | backend/cmd/checkpoint-agent/main.go:238-251 | Whatever a manifest asks for, its destination has no empty, `.` or `..` component. |
| Destinations.FinalPathWalks | backend/cmd/checkpoint-agent/main.go:238-251 | For all names, with slashes and dots too: the destination is where one arrives from the final directory by the parts of the job and then those of the name, with their fallbacks, or of the name alone in flat layout. |
| Destinations.JobLayoutMeans | backend/cmd/checkpoint-agent/main.go:243 | Job layout is asked for by the word in any case, with nothing but white space around it. |
| Destinations.StorageMirrorsDestination | backend/cmd/checkpoint-agent/main.go:253-265 | Inside the final directory, swapping the cleaned storage prefix of the storage path for the final directory gives the destination back. |
| Destinations.StorageFollowsDestination | backend/cmd/checkpoint-agent/main.go:253-260 | For every destination, inside the final directory or not: the way from the final directory to it is taken from the prefix instead. |
| Destinations.StorageFallsBack | backend/cmd/checkpoint-agent/main.go:261-264 | Without a usable prefix, a manifest's own storage path that leads properly below its base is announced as exactly that way, and otherwise the destination is. |
| Destinations.RelLeads | backend/cmd/checkpoint-agent/main.go:256 | The relative way from one location to another leads there. |
| Destinations.JobLayoutInjective | backend/cmd/checkpoint-agent/main.go:238-265 | In job layout, equal destinations or equal storage paths mean equal job and equal name. |
| Destinations.JobLayoutExactly | backend/cmd/checkpoint-agent/main.go:238-251 | In job layout a destination is the final directory plus exactly job and name if and only if both are single components. |
| Destinations.SlashedNamesCollide | backend/cmd/checkpoint-agent/main.go:238-251 | With slashes in names two different checkpoints get one destination. |
| Destinations.RenderInjective | backend/cmd/checkpoint-agent/main.go:279-291 | The paths written into manifests and events name one location each. |
| Manifests.SourceWalks | backend/cmd/checkpoint-agent/main.go:163 | The checkpoint lies where the text of its manifest's path without the suffix leads, even if that text ends in a slash or in dots. |
| Manifests.DestinationWalks | backend/cmd/checkpoint-agent/main.go:172-173 | Job and name come from the manifest; a checkpoint without a name has that of its own file or directory. |
| Manifests.FinalManifestTells | backend/cmd/checkpoint-agent/main.go:279-291 | Every field of the staged manifest is in the final one, and every metadata entry; only the three paths, status, time and the entry `agentCopied` are set, to what they should be. |
| Manifests.PolledTells | backend/cmd/checkpoint-agent/main.go:208-213 | A poll in place leaves a manifest with the same fields and the right three paths. |
| Manifests.NextStorageSettles | backend/cmd/checkpoint-agent/main.go:253-265 | Recomputing a storage path leaves it, reaches a fixpoint, or lowers (length, backslashes). |
| Manifests.OneRewriteFixesPaths | backend/cmd/checkpoint-agent/main.go:208-213 | After one rewrite in place only the storage path can ask for another one. |
| Manifests.RewritesEnd | backend/cmd/checkpoint-agent/main.go:208-213 | Whatever the clock says, an in-place manifest is rewritten at most (length of its storage path + 3) times and then never changes again. |
| Manifests.StagedStaysStaged | backend/cmd/checkpoint-agent/main.go:208-213 | For every checkpoint that lies in place there is an eligible staged manifest that no poll rewrites. |
| Manifests.InPlaceHere | backend/cmd/checkpoint-agent/main.go:195 | Settings under which a checkpoint does lie in place. |
| Agents.AnnounceInPlace | backend/cmd/checkpoint-agent/main.go:208-234 | Without faults the commit of a checkpoint in place is announced and accepted in any case, while the manifest on disk says committed if and only if it did before or had a wrong path. |
| Agents.AnnouncedIsTold | backend/cmd/checkpoint-agent/main.go:174-234 | When a commit has been announced, the manifest on disk has every field of the staged one, gives the destination, and outside the in-place branch says that the agent has copied the checkpoint. |
| Agents.DurableIsTold | backend/cmd/checkpoint-agent/main.go:195-207 | The same for a checkpoint that several processes have made durable. |
| Rewriting.VisitRepeatedly | backend/cmd/checkpoint-agent/main.go:208-213 | Undisturbed visits of the agent to a checkpoint in place change nothing on disk but its manifest, and after the first (length of its storage path + 3) visits nothing at all. |
| Disks.Disk.RemoveAll | backend/cmd/checkpoint-agent/main.go:368-378 | What a removal can leave: all, nothing or a part of one tree and never anything else; in one step if removal is atomic. |
| Disks.Disk.WriteFile | backend/cmd/checkpoint-agent/main.go:293-302 | What a write can leave: the old disk, the new file or a torn one, and a later modification time whenever anything changed. |
| Disks.Disk.Rename | backend/cmd/checkpoint-agent/main.go:383-386 | A rename is done completely or not at all, and without faults it is done exactly when nothing of the wrong kind is in its way. |
| Copying.CopyFile | backend/cmd/checkpoint-agent/main.go:410-426 | Success gives exactly the source's content at the target; any end touches only the target and missing parent directories. |
| Copying.CopyDir | backend/cmd/checkpoint-agent/main.go:390-408 | Walking the source in any order that has directories before their content, success lays exactly the source tree over what is at the target, and without faults it succeeds exactly when every node fits the kind of what is there. |
| Copying.CopyPath | backend/cmd/checkpoint-agent/main.go:355-364 | The same for files and directories; it also fails when the source is missing. |
| Copying.CopyPathAtomically | backend/cmd/checkpoint-agent/main.go:366-388 | However it ends, the destination has the complete new tree, what it had before, or nothing; nothing else changed but the temporary path. Success is one known disk. A failure without faults has kept the old data and removed the temporary path. |
| Copying.CopyAside | backend/cmd/checkpoint-agent/main.go:366-373 | The first half works at the temporary path only, and the destination keeps its data. |
| Copying.CopyAndDie | backend/cmd/checkpoint-agent/main.go:374-383 | A process that dies after removing the old data leaves an empty destination. |
| Copying.AllSteps | backend/cmd/checkpoint-agent/main.go:366-388 | Copy aside, remove, rename amounts to replacing the tree at the destination by the source tree. |
| Commits.MarkerTells | backend/cmd/checkpoint-agent/main.go:195-206 | A marker that was not there before, at whatever point an attempt stopped: a directory's implies complete data, a file's implies complete data and a final manifest. |
| Commits.StaleMarker | backend/cmd/checkpoint-agent/main.go:374-383 | With an old marker beside a file, the state between removing the old data and the rename has the marker and no data. |
| Commits.MarkerTellsExactly | backend/cmd/checkpoint-agent/main.go:195-206 | A marker proves the data, in every state an attempt can leave, if and only if there was none before; for a directory also if the old data was already the same. |
| Commits.CompleteCopyMeans | backend/cmd/checkpoint-agent/main.go:366-426 | Complete data means the same node at every place below the checkpoint; only the text of a directory's marker may differ. |
| Commits.NamesAsText | backend/cmd/checkpoint-agent/main.go:348-367 | Manifest, marker and temporary path of a checkpoint, by their text; the temporary path ends in the process id. |
| Commits.SourceUntouched | backend/cmd/checkpoint-agent/main.go:366-426 | However an attempt ends, a source that lies apart from where it writes is as it was. |
| Commits.BelowIsCopyable | backend/cmd/checkpoint-agent/main.go:366-388 | A source below its own destination is among the checkpoints that an attempt can copy. |
| Commits.ApplyOutcome | backend/cmd/checkpoint-agent/main.go:195-207 | The node at every location after a successful commit, told by where the location lies. |
| Commits.Commute | backend/cmd/checkpoint-agent/main.go:195-207 | Two commits whose paths do not meet give the same disk in either order. |
| Commits.OrderDoesNotMatter | backend/cmd/checkpoint-agent/main.go:195-207 | Pairwise independent commits give the same disk in every order. |
| Walks.WalkOrder | backend/cmd/checkpoint-agent/main.go:120-139 | What two orders of one walk ask for, commits to other places and rewrites in place, leaves the same disk but for commit times. |
| Walks.DeedsApart | backend/cmd/checkpoint-agent/main.go:195-213 | Commits and rewrites that lie aside of each other come to the commits and then the rewritten manifests. |
| Walks.PlansPermuted | backend/cmd/checkpoint-agent/main.go:120-139 | Listing entries in another order asks for the same commits. |
| Agents.Agent.PostEvent | backend/cmd/checkpoint-agent/main.go:454-476 | An event is sent at most once per call, success means it was accepted, and an accepted event is not reported as an error. |
| Agents.Agent.PostFailed | backend/cmd/checkpoint-agent/main.go:428-452 | At most one `failed` event, whose own failure never turns the attempt into a success. |
| Agents.Agent.WriteManifest | backend/cmd/checkpoint-agent/main.go:293-302 | Missing directories are made and the manifest is written, torn or untouched; nothing else moves, and without faults it succeeds exactly when nothing of the wrong kind is in its way. |
| Agents.Agent.WriteSuccessMarker | backend/cmd/checkpoint-agent/main.go:340-346 | The same for the marker, inside a directory or beside a file. |
| Agents.Agent.Store | backend/cmd/checkpoint-agent/main.go:195-207 | At every point where it can stop: a changed manifest implies complete data, and a file's changed marker implies data and manifest; success is one commit with all three. |
| Agents.Agent.Certify | backend/cmd/checkpoint-agent/main.go:200-207 | The same for the manifest and the marker, once the data is in place. |
| Agents.Agent.Perform | backend/cmd/checkpoint-agent/main.go:195-213 | The same over both branches; in place, only the manifest can change, and its content changes only with its modification time. |
| Agents.Agent.Attempt | backend/cmd/checkpoint-agent/main.go:174-234 | The events are a beginning of uploading-committed or of uploading-failed and describe this checkpoint; `committed` is sent only when data, manifest and marker are on disk; success means it was accepted. |
| Agents.Agent.ProcessManifest | backend/cmd/checkpoint-agent/main.go:142-236 | Over all manifests: skipped ones change and send nothing, unreadable ones fail, ready ones are committed; after a success the manifest on disk describes the same checkpoint, field by field, at its destination; without faults success holds exactly when nothing of the wrong kind is in the way. |
| Runs.WreckGoesOn | backend/cmd/checkpoint-agent/main.go:142-236 | One more attempt, however it ends, keeps the invariant of runs: source intact, destination complete, as at first, or empty, nothing else touched. |
| Runs.CanCommitStays | backend/cmd/checkpoint-agent/main.go:366-388 | No sequence of broken attempts makes a commit impossible that was possible, or the reverse. |
| Runs.Converges | backend/cmd/checkpoint-agent/main.go:142-236 | A commit after any wreck gives the disk that it would have given at first, orphaned temporary paths aside. |
| Runs.Retry | backend/cmd/checkpoint-agent/main.go:88-107 | Any number of attempts with crashes, faults and new process ids: the invariant holds throughout, a last success gives the clean result and has its commit accepted, and a last attempt without faults succeeds exactly when the first could have. |
| Durability.OthersKeepDurable | backend/cmd/checkpoint-agent/main.go:172-213 | Whatever is written elsewhere, an announced checkpoint stays restorable. |
| Durability.RecommitKeepsDurable | backend/cmd/checkpoint-agent/main.go:142-236 | After any number of broken attempts at committing it again, with removal in one step, it is restorable if and only if something is at its destination and its manifest is whole. |
| Durability.AnnounceLoseRecover | backend/cmd/checkpoint-agent/main.go:86-107 | A run of three processes from one disk to the next: the first announces a checkpoint, the second announces an upload, empties the destination and dies, the third makes the checkpoint restorable again and announces it. |
| Polling.Poller.Visit | backend/cmd/checkpoint-agent/main.go:120-139 | Whatever the job writes before the visit and between its stat and its read: an entry that is due is recorded, on success, with the version and the finding of the moment of reading and with what was done; any other is left alone and its version is on record; without faults it succeeds exactly when nothing is in the way. |
| Polling.Poller.Handle | backend/cmd/checkpoint-agent/main.go:134-137 | A success is recorded with what was found: a version found ready has been committed and its commit accepted, unless a fault hid its marker; every other record stays true. |
| Polling.Poller.Pass | backend/cmd/checkpoint-agent/main.go:110-140 | A chain of visits from the disk at the beginning to the disk at the end, each on the disk that the one before it left, with the job's writes in between. An error ends it with nothing recorded beyond it, without faults exactly at the first entry that is due and cannot go through. Every entry visited before was handled as its own visit saw it. While jobs are quiet the disk at the end is that of the commits and rewrites asked for, in walk order. |
| Polling.Poller.StuckBehind | backend/cmd/checkpoint-agent/main.go:134-136 | While a manifest that is due cannot be read or its checkpoint is missing, no pass gets beyond it, and what is listed behind it is neither recorded nor touched. |
| Polling.DueStaysDue | backend/cmd/checkpoint-agent/main.go:127-136 | A manifest that was due when the pass began, and has the same time when its own visit reads it, was due at that visit and is read with its first content, whatever else was written. |
| Polling.UnchangedWasRead | backend/cmd/checkpoint-agent/main.go:127-136 | A manifest that has its first time at the end of the pass had it when it was read. |
| Polling.Poller.Serve | backend/cmd/checkpoint-agent/main.go:86-107 | Over any number of passes, with job writes, faults, crashes and restarts, the memory stays true and every attempt keeps to the event language. |
| Polling.Poller.JobWrites | backend/cmd/checkpoint-agent/main.go:131-133 | Whatever the job writes meanwhile, with later modification times, no record becomes false. |
| Polling.Poller.LateMarker | backend/cmd/checkpoint-agent/main.go:160-170 | A file or directory checkpoint that becomes ready only after its manifest was read is never announced by this process, however often it comes by and with whatever faults. |
| Polling.Poller.LateMarkerThenRestart | backend/cmd/checkpoint-agent/main.go:86-107 | A process with an empty memory then announces it, if nothing is in its way. |
| Polling.RecordMade | backend/cmd/checkpoint-agent/main.go:134-137 | A success is recorded with the version that was read, no earlier than the recorded time, and with exactly what was found at it; a ready one had its commit delivered, unless its marker was missed. |
| Polling.RecordKept | backend/cmd/checkpoint-agent/main.go:131-137 | A record stays true as long as a changed manifest has a changed time. |
| Polling.SkippedIsHandled | backend/cmd/checkpoint-agent/main.go:131-133 | A manifest that the memory lets the agent skip was handled with exactly its present content; if it was ready then, its commit was delivered. |
| Polling.CommittedIffMarked | backend/cmd/checkpoint-agent/main.go:120-170 | Per manifest, after a pass without error during which jobs may write: one that was due, and eligible when it was read, has had `committed` accepted if and only if its marker was there when it was read, and otherwise nothing was sent for it. |
| Polling.CommittedIfUnchanged | backend/cmd/checkpoint-agent/main.go:120-170 | The same for a manifest that was due and eligible when the pass began, provided only that this manifest itself was not rewritten before it was read. |
| Polling.QuietCommittedIffMarked | backend/cmd/checkpoint-agent/main.go:120-170 | While jobs are quiet the same holds of the disk at the beginning of the pass. |
| Polling.PassOrder | backend/cmd/checkpoint-agent/main.go:120-139 | While jobs are quiet, two passes over the same entries in different orders, over checkpoints that do not meet, committed in place or elsewhere, leave the same disk but for commit times. |
| Polling.MarkersFirstDeliver | backend/cmd/checkpoint-agent/main.go:120-139 | If its job writes the marker first, an eligible manifest that the agent skips has had its `committed` event accepted, whatever other jobs do. |
| Staging.OthersStay | backend/cmd/checkpoint-agent/main.go:172-213 | An attempt changes nothing staged but, in place, its own manifest. |
| Staging.TameStays | backend/cmd/checkpoint-agent/main.go:172-213 | An attempt keeps the staging area in the shape the polling results ask for. |
| Staging.SeparateIsClear | backend/cmd/checkpoint-agent/main.go:238-251 | With staging and final directory apart and single-component names, no path a commit writes, for any process id, comes near the staging directory. |
| Staging.SeparateIsTame | backend/cmd/checkpoint-agent/main.go:76-79 | So two separate directories meet what the results about copying, runs and polling ask for. |
| Staging.ReadyDiskIsTame | backend/cmd/checkpoint-agent/main.go:142-236 | A concrete disk on which all these conditions hold together and a checkpoint is ready to be committed. |
| Training.StopAndGoOn | backend/hack/checkpoint_restore_realistic_train.py:168-185 | Training to k and then to n is training to n. |
| Training.CursorFollowsSteps | backend/hack/checkpoint_restore_realistic_train.py:71-74 | In every run cursor = step mod rows, epoch = step div rows and the loss history has one entry per step. |
| Training.EachRowOnce | backend/hack/checkpoint_restore_realistic_train.py:58-59 | Any window of as many steps as there are rows uses each row exactly once. |
| Training.UsedSplits | backend/hack/checkpoint_restore_realistic_train.py:58-72 | A stop in between does not change which rows come in which order. |
| Training.LossHistoryGrows | backend/hack/checkpoint_restore_realistic_train.py:164-169 | Earlier losses stay as a beginning of the later history. |
| Training.MomentumConserves | backend/hack/checkpoint_restore_realistic_train.py:57-69 | (1 - momentum) w - rate momentum v + rate (sum of gradients) never changes, for both weights and the bias, over any number of steps. |
| Training.GradientIsDerivative | backend/hack/checkpoint_restore_realistic_train.py:60-63 | Moving a weight or the bias by h changes the squared error of the prediction by h times its gradient and a term in the square of h: the gradient is the derivative. |
| Training.LossIsSquaredError | backend/hack/checkpoint_restore_realistic_train.py:60-74 | The loss that a step notes is the rounded squared error of the prediction before the step. |
| Training.StepFromRest | backend/hack/checkpoint_restore_realistic_train.py:57-69 | A step from rest multiplies the error on its row by 1 - 2 rate (x1^2 + x2^2 + 1). |
| Training.Trainer.TrainOneStep | backend/hack/checkpoint_restore_realistic_train.py:57-74 | The update in place, one field after the other, gives the next state, with gradients taken before any weight moves; `Training.GradientIsDerivative` and `Training.LossIsSquaredError` say what the gradients and the loss are. |
| Training.Trainer.MoveWeights | backend/hack/checkpoint_restore_realistic_train.py:65-67 | The loop moves each velocity first and its weight by the new velocity. |
| Training.Trainer.TrainTo | backend/hack/checkpoint_restore_realistic_train.py:184-185 | The loop ends in the state of the target step and leaves a state that is already there alone. |
| Checkpoints.Store.Save | backend/hack/checkpoint_restore_realistic_train.py:77-105 | A save writes its files in order or is cut short somewhere in that order, the next file perhaps torn. |
| Checkpoints.SavedIsLoaded | backend/hack/checkpoint_restore_multiframework_train.py:96-160 | In every layout of both scripts a completed save is loaded as exactly the saved state and manifest. |
| Checkpoints.CutShortLoads | backend/hack/checkpoint_restore_multiframework_train.py:96-160 | Whatever the checksum function, after a save that was cut short what is loaded is what was loaded before; or the new state, with its own manifest or, in the first script, with the old one if that has its checksum; or the new manifest beside an old state with the same checksum. |
| Checkpoints.CutShortSaveIsSafe | backend/hack/checkpoint_restore_multiframework_train.py:96-160 | No cut makes anything loadable but the old checkpoint or a state equal to the new one in all the checksum covers, if and only if the old state does not collide with the new one. |
| Checkpoints.NamesDiffer | backend/hack/checkpoint_restore_multiframework_train.py:81-88 | Different steps have different checkpoint names, beyond four digits too. |
| Checkpoints.NameTells | backend/hack/checkpoint_restore_multiframework_train.py:81-88 | A checkpoint's name carries its step in decimal, filled up with zeros to four digits. |
| Checkpoints.NoteTells | backend/hack/checkpoint_restore_realistic_train.py:92-103 | The manifest saved after a step gives that step's number and its loss, the rounded squared error. |
| Checkpoints.OwnFilesTell | backend/hack/checkpoint_restore_multiframework_train.py:123-141 | After a completed save a framework finds weights and bias in its model files and the velocities in its optimiser file, without the bias's velocity for DeepSpeed, whose `latest` file names the checkpoint. |
| Checkpoints.VersionIsChecked | backend/hack/checkpoint_restore_multiframework_train.py:145-160 | Under another data set version a checkpoint is refused: by the version of its state in the first script and by that of its manifest in the second. |
| Checkpoints.CoveredExactly | backend/hack/checkpoint_restore_multiframework_train.py:68-78 | Two states have the same part under the checksum exactly when they differ in the epoch and the seed at most. |
| Checkpoints.OtherCheckpointsStay | backend/hack/checkpoint_restore_multiframework_train.py:96-142 | Saving at one step, completely or not, leaves what can be loaded for every other step. |
| Checkpoints.UncoveredFieldsHeal | backend/hack/checkpoint_restore_multiframework_train.py:68-78 | States that agree in what the checksum covers train on alike, and the epoch is right again after one step. |
| Checkpoints.LoadedExactlyIfCovered | backend/hack/checkpoint_restore_multiframework_train.py:145-160 | In every layout and for every checksum function, a state that was replaced after the save is loaded if and only if it has the checksum of the saved one and carries it, and is refused otherwise. |
| Checkpoints.EpochIsNotChecked | backend/hack/checkpoint_restore_realistic_train.py:118-133 | So a checkpoint with another epoch or seed is loaded, in every layout. |
| Checkpoints.ResumeIsStraight | backend/hack/checkpoint_restore_multiframework_train.py:185-211 | Training to k, saving, loading and training to n gives the state of training straight to n, for all k <= n and every layout. |
| Checkpoints.RestoreIsSeamless | backend/hack/checkpoint_restore_realistic_train.py:157-186 | Across save and restore the rows come in the order of one run and momentum conserves its quantity. |
| Checkpoints.TrainSaveLoadTrain | backend/hack/checkpoint_restore_realistic_train.py:157-186 | The two processes end in the state of one; the snapshot taken at the restore has a loss history that begins the final one. |
| Translations.GetNestedValue | frontend/hack/align_translation.py:87-101 | The loop finds the key itself first, else what its components lead to. |
| Translations.GetNestedIsWalk | frontend/hack/align_translation.py:87-101 | With dot-free keys the two lookup styles agree. |
| Translations.AllKeysAreFound | frontend/hack/align_translation.py:103-119 | The collected keys are exactly those for which a lookup finds something. |
| Translations.FlattenAt | frontend/hack/format_translation.py:6-14 | Flattening puts each leaf under its joined path, and nothing else. |
| Translations.LookupsSurvive | frontend/hack/format_translation.py:6-21 | A lookup in the flattened file gives what it gave before, except that keys of sub-dictionaries become missing. |
| Translations.FormattingTwice | frontend/hack/format_translation.py:6-21 | Formatting a formatted file changes nothing, whatever its keys. |
| Translations.FlattenSound | frontend/hack/format_translation.py:6-14 | Each flattened entry is a leaf at a path that joins to its key. |
| Translations.FlattenComplete | frontend/hack/format_translation.py:6-14 | Each leaf is flattened. |
| Translations.AssignKey | frontend/hack/align_translation.py:152-165 | The walk with a moving cursor, making dictionaries on its way, is one nested assignment, and raises exactly when that is impossible. |
| Translations.CreateNestedDict | frontend/hack/align_translation.py:141-167 | The loop over all keys is the sequence of those assignments, whose values `Translations.CreatedTells` reads off the defaults. |
| Translations.CreatedTells | frontend/hack/align_translation.py:141-167 | If no key's place is a beginning of another's, the created dictionary has exactly the given keys; each has the text that a lookup in the defaults finds, or the placeholder, stands under the whole key or below its components, and is found again by a lookup. |
| Translations.SetFieldOrder | frontend/hack/align_translation.py:152-165 | An assignment keeps the order of the keys and puts a new one last. |
| Translations.InsertLeafAt | frontend/hack/align_translation.py:152-165 | An assignment sets one leaf, drops what lay below it and leaves every other leaf. |
| Translations.InsertFails | frontend/hack/align_translation.py:158-162 | An assignment fails only with a leaf in its way. |
| Translations.NestThenFlatten | frontend/hack/align_translation.py:141-167 | Flattening the created dictionary gives exactly the given keys with their values if and only if no key's place is a proper beginning of another's. |
| Translations.OrderOfKeys | frontend/hack/align_translation.py:141-167 | The order of the keys makes no difference to that. |
| Formatting.Folder.ProcessFolder | frontend/hack/format_translation.py:23-52 | Check mode changes nothing and names exactly the files that formatting would change, outer white space aside; write mode formats exactly the listed files, and, when one of them is no JSON, exactly those listed before the first such file. With JSON text that is read back, every lookup in a formatted file finds the text it found before, and keys of sub-dictionaries become missing. |
| Formatting.FormattedPasses | frontend/hack/format_translation.py:16-44 | A formatted text is its own formatting and passes the check. |
| Formatting.FormattedKeepsLookups | frontend/hack/format_translation.py:16-21 | A formatted text reads as one level with the entries of the flattened file, and with dot-free keys every lookup in it finds the text it found before. |
| Formatting.Folder.FormatThenCheck | frontend/hack/format_translation.py:23-52 | After the write mode the check mode finds nothing. |
| Formatting.SomeCodecRoundTrips | frontend/hack/format_translation.py:16-21 | There are ways of writing maps as text that are read back, as the results on formatting ask. |
| KebabCase.KebabTwice | frontend/hack/refactor_filenames.py:7-19 | A converted name is not converted again. |
| KebabCase.KebabMeans | frontend/hack/refactor_filenames.py:7-19 | README in any case and names without capitals stay; in any other name every character is kept in order and in lower case, directly before each capital but a first one there is a hyphen, and there is nothing else. |
| KebabCase.FileNameMeans | frontend/hack/refactor_filenames.py:38-42 | A file name splits in exactly one way into stem and extension; its stem gets kebab case and its extension stays. |
| KebabCase.DirNameMeans | frontend/hack/refactor_filenames.py:53-55 | A directory name gets kebab case as a whole. |
| KebabCase.FileNameTwice | frontend/hack/refactor_filenames.py:38-42 | Nor is a converted file name, although its extension keeps its capitals. |
| KebabCase.DirNameTwice | frontend/hack/refactor_filenames.py:53-55 | Nor is a converted directory name. |
| Renaming.FindRenameTargets | frontend/hack/refactor_filenames.py:21-60 | The walk collects the plan: below first, then files, then directories. |
| Renaming.Disk.PerformRenames | frontend/hack/refactor_filenames.py:205-215 | The loop carries out the whole plan or stops at the first rename that raises. |
| Renaming.StrictDecides | frontend/hack/refactor_filenames.py:208-210 | If no rename meets a taken name the plan does what it should; if one does, it raises or an entry is lost for good. |
| Renaming.PassRuns | frontend/hack/refactor_filenames.py:32-58 | The renames of one pass over a directory succeed exactly when each new name is free in its turn. |
| Renaming.PlanRuns | frontend/hack/refactor_filenames.py:21-60 | Without touching another entry, the plan converts the whole tree exactly when nothing clashes anywhere in it. |
| Renaming.RenamesConvert | frontend/hack/refactor_filenames.py:205-210 | The renames in order convert every component of every path, with nothing lost, if and only if in each directory the final names differ and no file takes the present name of a directory beside it. |
| Renaming.FoundWhereConverted | frontend/hack/refactor_filenames.py:21-60 | Afterwards every file, by identity, is found under its path with each component converted. |
| Renaming.ConvertPathAt | frontend/hack/refactor_filenames.py:21-60 | A converted path has as many components, each the new name of the entry on the old path. |
| Renaming.NewNameMeans | frontend/hack/refactor_filenames.py:32-58 | Ignored entries keep their names; directories get kebab case, files for their stem if they have capitals. |
| Renaming.Refactor | frontend/hack/refactor_filenames.py:181-210 | Search and loop together have that effect on the disk, under exactly that condition. |
| Renaming.FileOntoDirectory | frontend/hack/refactor_filenames.py:38-58 | A directory in which the final names differ and the renames still fail. |
| Colour.HslInRange | frontend/hack/convert_index_css.py:55-76 | No denominator is zero; hue is in [0, 1) turns, saturation and lightness in [0, 1]. |
| Colour.ThereAndBack | frontend/hack/convert_index_css.py:55-76 | The conversion of section 7.1 of CSS Color Module Level 4 undoes this one for every colour in gamut. |
| Colour.BackAndThere | frontend/hack/convert_index_css.py:55-76 | This one undoes the published one for every colour that has a hue. |
| Colour.ConversionIsInjective | frontend/hack/convert_index_css.py:55-76 | No two colours in gamut get the same hue, saturation and lightness. |
| Colour.GreyExactly | frontend/hack/convert_index_css.py:55-76 | Saturation is 0 for greys and no other colours; greys get hue 0, and their channel as lightness. |

## Left out

- Agents.Agent.ProcessManifest: in the copying branch no temporary path of the destination meets the source (`Covers`): a source above its own destination would copy its temporary path into itself without end. Only one attempt is under way at a time, and the job does not write during it.
- Agents.Agent.PostEvent: the HTTP exchange is one step that may fail after the backend has accepted the event; request bodies, tokens and status codes are not modelled.
- Agents.Agent.WriteManifest: JSON text is kept as the value it decodes to, metadata values are strings, and the metadata map that item and final manifest share is a value, so the write through the shared map is not seen.
- Copying.CopyPathAtomically: the source does not meet the temporary path, as for `ProcessManifest`. With removal in several steps (`atomicRemoval` not set) a crash can leave a part of the old data at the destination, and the contract then says so instead of all or nothing.
- Copying.CopyFile: bytes are not copied one by one; a copy that is cut short leaves a file with arbitrary text. A source that changes while it is copied is not modelled.
- Copying.CopyDir: source and target lie apart, because a tree that is copied into itself does not end.
- Copying.CopyPath: source and target lie apart, for the same reason.
- Copying.CopyAside: the source does not meet the temporary path, for the same reason.
- Agents.Agent.Store: no temporary path meets the source, as for `ProcessManifest`.
- Agents.Agent.Certify: no temporary path meets the source, as for `ProcessManifest`.
- Agents.Agent.Perform: no temporary path meets the source, as for `ProcessManifest`.
- Agents.Agent.Attempt: no temporary path meets the source, as for `ProcessManifest`.
- Commits.MarkerTellsExactly: for a directory the if-and-only-if is given for removal in one step; `Commits.MarkerTells` holds either way.
- Durability.RecommitKeepsDurable: is given for removal in one step.
- Runs.Retry: the all-or-nothing guarantee over several attempts is given for removal in one step, and the manifest, source and marker lie out of the agent's reach (`Remote`).
- Polling.Poller.Pass: the walk is a given list of entries without repetition, in any order; `err` entries of the walk are entries that are not there. What it says of deliveries is for markers that are not missed; what it says of the disk is also for jobs that are quiet during the pass. The job does not write while an attempt is under way.
- Staging.TameStays: staged manifests are committed in place or to places clear of the staging directory (`Tame`, which `Staging.SeparateIsTame` derives from separate directories), and none is named `...orbit.json`, which would describe the directory above its own.
- Polling.PassOrder: is about passes during which no job writes; what jobs write is not the same in two different passes.
- Durability.AnnounceLoseRecover: the process that dies is given as the steps it takes before it dies, in their order, because a crash at a chosen point cannot be forced on the calls of the disk.
- Polling.Poller.Serve: time is a counter that grows with every write, so that a new version has a later modification time; cancellation is a call that fails, and waiting is not modelled. A restart follows a crash.
- Polling.MarkersFirstDeliver: asks for reliable lookups of the marker; without them a ready manifest can be recorded without its commit, as the code does, and its record then says `missed`.
- Disks.Disk.Rename: permissions, symbolic links and several file systems are not modelled.
- Destinations.FinalPathOfPlainNames: the final directory and the staging directory are absolute and clean.
- Checkpoints.TrainSaveLoadTrain: states are values, so the deep copy by which the scripts keep the snapshot apart from the state they go on training (`backend/hack/checkpoint_restore_realistic_train.py:165`) has nothing to guard against here.
- Training.Trainer.TrainOneStep: arithmetic is on exact reals, the rounding of a loss is a parameter, and the initial state and data set are parameters instead of random and computed values.
- Checkpoints.Store.Save: the entries `checkpointDir` and `path` of the manifest are left out; the checksum is an arbitrary function; JSON text is the value it decodes to; the environment, printing and the proof file of a restore are left out.
- Checkpoints.SavedIsLoaded: the first script checks the data set version of the state, so that script asks for a state of the present version.
- Translations.CreatedTells: the defaults give text for each key, as for `CreateNestedDict`.
- Translations.CreateNestedDict: the defaults give text for each key (`StringValued`); a key that names a sub-dictionary would share that dictionary with the defaults. The cursor into the nested dictionaries is a path.
- Translations.FlattenAt: leaves are text; numbers, lists and null are not told apart, and keys at each level are non-empty and free of dots (`FlattenSound` and `FlattenComplete` have no such condition below the top level).
- Formatting.Folder.ProcessFolder: reading and writing JSON text and the strip of white space are parameters; sorting the keys is part of writing.
- KebabCase.KebabTwice: letters outside ASCII have no case.
- Renaming.Refactor: the list of ignored paths is an arbitrary predicate on paths; the rewriting of imports and the dry run are left out.
- Colour.ThereAndBack: the transfer curve before and the decimal rounding after the conversion are left out, as are the OKLCH matrices.
- `copyResumeCheckpoint` (`backend/cmd/checkpoint-agent/main.go:304-323`) copies straight to its target and can show the source's marker early; it makes none of the promises proved here.
- The scanner service, database wrappers, framework-specific training, translation service, image and frontend code.
