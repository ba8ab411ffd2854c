# ArchBackup in Dafny

ArchBackup is a set of Python scripts that back up and restore an Arch Linux
workstation. The backup scripts follow one pattern: show a banner, read a
few flags, decide whether to compress, check the tools they need, pick a
mounted external drive under `/run/media/<user>` or `/media/<user>`, make a
timestamped run directory on it, check free space, write a manifest, copy
the sources with `rsync`, optionally build a `tar` archive with `pigz`, and
exit 1 when any copy or the archive failed. There are six of them:

- `backup-main` copies the home folders, with exclude patterns.
- `backup-dots` copies the dotfiles tree.
- `backup-ssh` copies `~/.ssh` and `sshd_config`, then rotates old runs.
- `backup-smb` copies the Samba configuration and its credentials files.
- `backup-rest` copies a few system files.
- `backup-grub` lists the GRUB theme and defaults, but copies nothing: in its source loop the copy comes after the `continue` of the missing-source branch, so it is never reached, and the model keeps that.

The restore scripts put these files back. They can ask for a confirmation
first, and they drive `systemctl`, `sshd -t`, `testparm`, `sed` and
`grub-mkconfig` through `sudo`.

This project models the scripts as programs acting on a **world** (module `Host`).

The world has two parts:

- An **environment**. Its parts are:
  - the user name and the script directory;
  - the file system, seen as the answers to `is_dir`/`is_file`/`exists`/`iterdir`;
  - the mount table and the free bytes;
  - which tools `shutil.which` finds;
  - the stream of outcomes (exit code, stdout) that successive commands get;
  - the stream of lines the operator types;
  - the temporary-file name, the local time and the modification times.
- A **trace** of what the run did so far: commands, prompts, writes, moves, links and removals.

`Run`, `Prompt` and `Do` are the only ways a script acts. A command's outcome is the next one in the stream. The model counts the `rsync` runs and the hard `rsync` failures among the steps a run took. A hard failure is an exit code other than 0, 23 or 24.

Every script's `main()` is a `RunScript` method. Its contract states:

- the exit status;
- what was run in the cases that end early;
- for a run that reaches its summary line, how the failure count relates to the missing sources and the hard `rsync` failures, and how the exit status follows from it.

The shared logic lives in its own modules:

- `Common` is `common.py`.
- `Cli` covers the banner, the flag loop, the compression question and the confirmation gate.
- `Transfer` covers `run_rsync`, the sudo check, `date`, the two archive styles and the copy loops.
- `Opening` is the opening sequence the backup scripts share.
- `PyStr` holds the Python string operations the scripts rely on.

## Model

| member | source | states |
|---|---|---|
| Common.ReadMountFstypes | common.py:10-21 | the map is empty when the mount table cannot be read; otherwise it is `Fstypes` of its lines |
| Common.RecordEntry | common.py:16-18 | a line with three fields sets its mount point's type; any other line leaves the map unchanged |
| Common.FstypesHasRecorded | common.py:15-18 | every mount point named by a line with three fields is a key |
| Common.FstypesRecorded | common.py:15-18 | every key comes from such a line |
| Common.FstypesLastWins | common.py:15-18 | the last line naming a mount point decides its type |
| Common.SafeChildren | common.py:49-53 | the offered children are exactly the entries of the root that are directories and safe mounts, and no more of them than entries |
| Common.CandidatesAreSafe | common.py:24-54 | every destination is a directory and a safe mount, directly under `/run/media/<user>` or `/media/<user>` |
| Common.ListDestinations | common.py:44-54 | the loop returns exactly `Candidates(env)` |
| Common.ScanRoot | common.py:50-53 | one root contributes exactly its safe mounted child directories, in listing order |
| Common.Choice | common.py:75-82 | a valid choice lies in `1..n`; an answer that is not all digits after stripping is refused |
| Common.ChoiceNumber | common.py:75-83 | typing a listed number, with blanks around it, picks that number |
| Common.ChoiceOutOfRange | common.py:80-82 | 0 and numbers past the list are refused |
| Common.SelectDestination | common.py:57-85 | no destination: exit 1; one: it is used without a prompt; several: a valid answer picks `dests[c-1]` after the confirm prompt, and any other answer exits 1 |
| Common.EnoughSpaceBytes | common.py:92-94 | the check on whole gibibytes passes exactly when the free bytes reach `min_gb` GiB |
| Common.WriteManifest | common.py:103-111 | the write is the title line followed by one line per item |
| Common.ManifestReadBack | common.py:103-111 | a manifest split into lines gives back the title and the items |
| Common.SplitLinesLines | common.py:107-109 | items written on lines of their own split back into the items |
| Common.JoinLines | SERV/SMB/backup-smb.py:108-110 | `"\n".join(items) + "\n"` of a non-empty list is the same text as one item per line |
| Host.Run | MAIN/backup-main.py:135-137 | a command gets the next outcome in the stream and is appended to the steps |
| Host.Prompt | MAIN/backup-main.py:118-120 | `input` returns the next line typed and records the prompt |
| Host.Do | DOTS/restore-dots.py:76 | any other effect, such as a move, runs no command and reads no answer |
| Host.HardRsyncs | SERV/SSH/backup-ssh.py:31-38 | hard rsync failures are never more than the steps |
| Host.RsyncRuns | MAIN/backup-main.py:250-280 | rsync runs are never more than the steps |
| Host.RunningCounts | SERV/SSH/backup-ssh.py:31-38 | one more command adds to the tallies only when it is rsync, and to the failures only when its code is not 0, 23 or 24 |
| Host.RunningLastTar | MAIN/backup-main.py:283-327 | after a tar command, the last tar step is that one; after any other command it is unchanged |
| Host.RmtreesAppend | SERV/SSH/backup-ssh.py:313-317 | the removals of a concatenated trace are those of each part, in order |
| Cli.Banner | MAIN/backup-main.py:81-92 | without `--no-banner` the banner waits for Enter; with it nothing happens |
| Cli.ScanFlags | MAIN/backup-main.py:93-111 | the loop computes `Scan` of the arguments |
| Cli.ScanAppend | SERV/SSH/backup-ssh.py:94-114 | scanning a complete prefix and then the rest is scanning them in turn |
| Cli.ScanTrailingValueFlag | SERV/SSH/backup-ssh.py:95-107 | a value flag given last changes nothing |
| Cli.ScanUnknown | SERV/SSH/backup-ssh.py:114 | an unknown argument is skipped |
| Cli.ScanKeep | SERV/SSH/backup-ssh.py:107-113 | `--keep v` sets `int(v)` when that parses, otherwise 5 |
| Cli.KeepNumber | SERV/SSH/backup-ssh.py:107-113 | a decimal or negative decimal given to `--keep` is kept as that number |
| Cli.ScanKeepsSet | SERV/SSH/restore-ssh.py:44-58 | a flag once set stays set |
| Cli.ScanSwitch | SERV/SSH/restore-ssh.py:50-57 | `--manifest-only`, `--no-compress` and `--no-restart`, wherever the loop meets them, set their flag |
| Cli.DeclinesExactly | MAIN/backup-main.py:118-121 | only `n` or `N`, blanks aside, declines compression; an empty reply accepts |
| Cli.AcceptsExactly | MAIN/backup-main.py:121 | the lower-cased reply differs from `n` unless it is `n` or `N` |
| Cli.DecideCompress | MAIN/backup-main.py:113-121 | `--yes` compresses, `--no-compress` does not, and otherwise the reply to the question decides |
| Cli.AgreesExactly | SERV/SMB/restore-smb.py:32-35 | only `y` or `Y`, blanks aside, confirms |
| Cli.Gate | SERV/SMB/restore-smb.py:28-37 | without `--confirm`, or with `--yes`, the run goes on with no prompt; otherwise the answer decides |
| Opening.Greet | SERV/REST/backup-rest.py:44-58 | the run after it is `Greeted`: the banner pause and the compression question only when asked; the compression choice is `Compresses`: `--yes`, or no `--no-compress` and a reply read after the banner's Enter that is not `n` |
| Opening.CheckTools | SERV/REST/backup-rest.py:60-71 | the tools pass exactly when rsync is found, sudo is found and `sudo -v` succeeds where needed, and pigz is found when compressing; no rsync means nothing runs |
| Opening.Locate | SERV/REST/backup-rest.py:73-81 | it stops exactly where `LocateStop` says: Exit(1) when no destination is chosen, Uncaught when `date` fails; no destination means nothing done; otherwise the chosen destination, the stripped `date` output, and the run directory `<dest>/<area>/<prefix><timestamp>` made last after exactly one command; nothing is removed |
| Opening.Open | MAIN/backup-main.py:81-140 | the stop is exactly `OpenStop`: 1 when the tools are not found (the run then being `Checked`), else as `LocateStop`; a run that gets through has the destination `OpenDest`, the stamp `OpenStamp`, and its run directory made last; no rsync runs and nothing is removed |
| Opening.GreetAndCheck | SERV/REST/backup-rest.py:44-71 | the greeting and the tool checks leave the run `Checked`, and they pass exactly when `ToolsFound` |
| Opening.PrepStop | common.py:88-98 | a backup stops before its first copy only with 1, Exit(1) or Uncaught; missing tools give 1; and it goes on only when the opening gets through, `check_free_space` exiting 1 below the floor |
| Opening.Verdict | MAIN/backup-main.py:337-340 | the status is 1 exactly when a copy failed or the following check failed, and 0 otherwise |
| Transfer.RunRsync | SERV/SSH/backup-ssh.py:19-38 | `run_rsync` raises exactly when the code is not 0, 23 or 24, and the failure tally grows by one exactly then |
| Transfer.RunOther | SERV/SSH/backup-ssh.py:228-240 | a command that is not rsync leaves the rsync tallies unchanged |
| Transfer.EnsureSudo | SERV/SSH/backup-ssh.py:63-67 | no sudo gives false with nothing run; otherwise `sudo -v` runs and its code decides |
| Transfer.Stamp | MAIN/backup-main.py:135-137 | the timestamp is the stripped output of `date`, or none when `date` fails |
| Transfer.TarRules | SERV/SMB/backup-smb.py:189-204 | the lenient tar rule, where status 1 is a warning, differs from the strict one exactly at status 1 |
| Transfer.TarToTemp | DOTS/backup-dots.py:194-230 | tar writes to the temporary file; any failure removes it, and success moves it to the archive path |
| Transfer.InPlaceExcludesItself | SERV/SMB/backup-smb.py:153-165 | the excluded pattern names the archive being written, relative to the archived directory |
| Transfer.ArchiveInPlace | SERV/SMB/backup-smb.py:166-204 | tar failed exactly when its code is neither 0 nor 1; on success the archive is handed back with `chown` |
| Transfer.Existing | MAIN/backup-main.py:253-257 | the kept paths are no more than the given ones |
| Transfer.ExistingMembers | MAIN/backup-main.py:253-257 | exactly the paths that exist are copied |
| Transfer.CopyExisting | SERV/REST/backup-rest.py:106-116 | every existing source is copied once, in order; copied plus skipped is all sources; each hard failure counts one |
| Transfer.CopyRequired | DOTS/backup-dots.py:153-162 | a missing source counts one failure with nothing run; otherwise rsync runs and a hard failure counts one |
| Transfer.Files | SERV/SSH/backup-ssh.py:220-221 | the regular files kept are no more than the paths |
| Transfer.FilesAll | SERV/SSH/backup-ssh.py:220-221 | all paths are kept exactly when all are regular files |
| Transfer.CopyFiles | DOTS/backup-dots.py:180-190 | each regular file is copied in order; failures are the missing files plus the hard rsync failures |
| Transfer.ExecAll | SERV/SMB/restore-smb.py:141-144 | one trace entry per command |
| Transfer.RunAll | SERV/SMB/restore-smb.py:141-144 | the commands run in order whatever they return; earlier steps are kept |
| BackupMain.Sources | MAIN/backup-main.py:211-231 | each source is `/home/<user>/<name>`, in the listed order |
| BackupMain.OddEntries | MAIN/backup-main.py:242 | `[xs[i+1] for i in range(0, len(xs), 2)]` takes every second entry, half as many |
| BackupMain.ExcludeArgs | MAIN/backup-main.py:170-209 | two arguments per pattern |
| BackupMain.ExcludesRoundTrip | MAIN/backup-main.py:239-243 | rebuilding `--exclude` pairs from the listed patterns gives back rsync's exclude arguments |
| BackupMain.CommonExcludesListed | MAIN/backup-main.py:170-243 | `excludes.txt` lists exactly the 19 patterns rsync is given |
| BackupMain.ExtraExcludesByName | MAIN/backup-main.py:259-265 | `VM`, `Downloads` and `.ssh` get one extra pattern each; every other name gets none |
| BackupMain.ExtraExcludesOfJoin | MAIN/backup-main.py:260-264 | the extra pattern depends only on the source's final name |
| BackupMain.CopyArgv | MAIN/backup-main.py:266-270 | the copy command is an rsync run |
| BackupMain.Archive | MAIN/backup-main.py:283-327 | tar's status 1 is a warning; any other failure sets `tar_failed` |
| BackupMain.TrimKeepsLastLines | MAIN/backup-main.py:63-73 | a log over the limit is cut to a tail made of its last `max_lines` lines, or all of them when there are fewer |
| BackupMain.TrimSmallLog | MAIN/backup-main.py:68-69 | a log within the limit is left as it is |
| BackupMain.Interrupt | MAIN/backup-main.py:150-156 | SIGINT or SIGTERM trims the log and exits with 130 |
| BackupMain.WriteManifests | MAIN/backup-main.py:234-243 | `sources.txt` lists the sources; `excludes.txt` lists the patterns |
| BackupMain.Prepare | MAIN/backup-main.py:80-243 | the flags are `Scan` of the arguments; the stop is exactly `Stop`: the opening's, or Exit(1) when `check_free_space` finds under 20 GiB; without the tools the run ends at the greeting; otherwise the run directory is `<dest>/MAIN/BKP-<ts>`, the log file is `LogPath` of it, and the trace ends with the two manifests |
| BackupMain.CopyAndArchive | MAIN/backup-main.py:250-327 | copied plus skipped is all sources; copied is the existing ones and the rsync runs; failures are the hard rsync failures |
| BackupMain.RunScript | MAIN/backup-main.py:78-340 | an early stop is `Stop`'s status, with no summary; a manifest-only run returns 0 right after writing both manifests and copies nothing; otherwise the summary is reached, with total plus skipped = sources, total = existing = rsync runs, failures = hard failures, tar failed exactly when the last tar step's code is neither 0 nor 1 (and never without compression), status = Verdict, and the last event is `trim_log` on the run's log file |
| BackupDots.TreeArgv | DOTS/backup-dots.py:156 | the tree copy is an rsync run |
| BackupDots.FileArgv | DOTS/backup-dots.py:171-184 | each file copy is an rsync run |
| BackupDots.MissingCounts | DOTS/backup-dots.py:153-190 | each of the four sources counts at most once; none counts exactly when all are there |
| BackupDots.Copies | DOTS/backup-dots.py:153-190 | failures are the missing sources plus the hard rsync failures; the present sources are each copied once |
| BackupDots.Prepare | DOTS/backup-dots.py:47-146 | flags are `Scan`; the stop is exactly `Stop`, the 20 GiB floor included; otherwise the destination is `OpenDest`, the run directory `<dest>/DOTS/DOTS-<ts>`, and the manifest is written |
| BackupDots.CopyAndArchive | DOTS/backup-dots.py:153-230 | the copies as above; the archive ends with the move on success and the unlink on failure |
| BackupDots.RunScript | DOTS/backup-dots.py:45-236 | an early stop is `Stop`'s status; manifest-only returns 0 after the manifest and copies nothing; otherwise the summary is reached, with failures = missing + hard failures, rsync runs = present sources, tar failed exactly when the last tar step's code is not 0, and status = Verdict |
| BackupSsh.SourcesTextSections | SERV/SSH/backup-ssh.py:171-189 | `sources.txt` is the sources manifest and the excludes manifest, separated by a blank line |
| BackupSsh.SshDirArgv | SERV/SSH/backup-ssh.py:199-211 | the `.ssh` copy is an rsync run |
| BackupSsh.FileArgv | SERV/SSH/backup-ssh.py:226-247 | the file copy is an rsync run, with or without sudo |
| BackupSsh.CopySshDir | SERV/SSH/backup-ssh.py:196-217 | a missing `~/.ssh` is one failure with nothing run; otherwise a hard rsync failure is one |
| BackupSsh.FileOutcome | SERV/SSH/backup-ssh.py:220-258 | a missing file fails with nothing run; a sudo refusal fails after at most the sudo check |
| BackupSsh.FileOutcomeCounts | SERV/SSH/backup-ssh.py:220-258 | a pass fails for exactly one reason: the file is missing, sudo refused, or rsync failed hard |
| BackupSsh.SudoCopyCounts | SERV/SSH/backup-ssh.py:224-245 | the `sshd_config` pass fails when sudo is refused or its rsync fails hard |
| BackupSsh.SudoRsyncCounts | SERV/SSH/backup-ssh.py:226-242 | the sudo copy fails exactly on a hard rsync failure; `chown` and `chmod` do not count |
| BackupSsh.CopyFile | SERV/SSH/backup-ssh.py:220-258 | one pass of the loop is `FileOutcome` |
| BackupSsh.MissingFiles | SERV/SSH/backup-ssh.py:256-258 | missing files are no more than the sources |
| BackupSsh.CountedCopy | SERV/SSH/backup-ssh.py:220-258 | one pass counts its single failure reason |
| BackupSsh.CopyFiles | SERV/SSH/backup-ssh.py:220-258 | failures are the missing files, plus a refused sudo for `sshd_config`, plus the hard rsync failures |
| BackupSsh.RunDirs | SERV/SSH/backup-ssh.py:309 | every `SSH-*` run entry kept is a directory |
| BackupSsh.ByAgeSorts | SERV/SSH/backup-ssh.py:308-312 | the order `sorted(..., key=mtime, reverse=True)` gives is newest first and has the same entries |
| BackupSsh.RotationPartitions | SERV/SSH/backup-ssh.py:305-313 | kept and removed together are the run directories; `min(keep, n)` are kept; a negative keep removes nothing |
| BackupSsh.RotationKeepsNewest | SERV/SSH/backup-ssh.py:308-313 | no removed run directory is newer than a kept one |
| BackupSsh.Removals | SERV/SSH/backup-ssh.py:313-317 | one removal per expired directory, in order |
| BackupSsh.Rotate | SERV/SSH/backup-ssh.py:305-317 | the removals are exactly the expired directories, errors ignored |
| BackupSsh.RotationRmtrees | SERV/SSH/backup-ssh.py:305-317 | the rotation removes exactly the expired run directories and nothing else |
| BackupSsh.RotateOnSuccess | SERV/SSH/backup-ssh.py:320-323 | rotation happens only on a clean run: the removals are the expired directories when clean and none otherwise, and they come last |
| BackupSsh.Prepare | SERV/SSH/backup-ssh.py:72-189 | flags are `Scan`; the stop is exactly `Stop`, the 20 GiB floor included; nothing is removed; otherwise the run directory is `<dest>/SERV/SSH/SSH-<ts>` and `sources.txt` is written last |
| BackupSsh.Settle | SERV/SSH/backup-ssh.py:146-189 | the log directory is made; below 20 GiB free it exits 1, otherwise `sources.txt` is written last; no command runs |
| BackupSsh.Copies | SERV/SSH/backup-ssh.py:195-263 | failures are the missing pieces, a refused sudo, and the hard rsync failures |
| BackupSsh.CopyAndArchive | SERV/SSH/backup-ssh.py:195-303 | as `Copies`, the only removal being the agent directory; tar failed exactly when the last tar step's code is not 0, and never without compression |
| BackupSsh.RunScript | SERV/SSH/backup-ssh.py:70-324 | an early stop is `Stop`'s status with nothing removed; manifest-only returns 0 after `sources.txt`; otherwise the summary is reached with failures as in `Copies`, tar as in `CopyAndArchive`, status = Verdict, and the removals in the whole trace are exactly the agent directory plus, only when the status is 0, the expired run directories, removed last |
| BackupRest.CopyArgv | SERV/REST/backup-rest.py:113 | each source is copied by a sudo rsync |
| BackupRest.SourcesTextIsManifest | SERV/REST/backup-rest.py:98-104 | `sources.txt` has the `write_manifest` layout |
| BackupRest.Prepare | SERV/REST/backup-rest.py:41-104 | the stop is exactly `Stop`: no rsync, no sudo or a refused `sudo -v` returns 1 at the checks, the 5 GiB floor exits 1; otherwise the run directory is `<dest>/SERV/REST/REST-<ts>` |
| BackupRest.CopyAndArchive | SERV/REST/backup-rest.py:106-214 | copied plus skipped is all sources; copied is the existing ones; failures are the hard rsync failures; tar failed exactly when the last tar step's code is neither 0 nor 1 |
| BackupRest.RunScript | SERV/REST/backup-rest.py:40-218 | an early stop is `Stop`'s status and never 0; otherwise the summary is reached, with copied = existing = rsync runs, failures = hard failures, tar failed exactly when the last tar step's code is neither 0 nor 1, and status = Verdict |
| BackupSmb.CopyArgv | SERV/SMB/backup-smb.py:121-141 | each source is copied by a sudo rsync |
| BackupSmb.ChmodArgv | SERV/SMB/backup-smb.py:123-125 | `chmod 755` is not an rsync run |
| BackupSmb.SourcesTextIsManifest | SERV/SMB/backup-smb.py:107-113 | `sources.txt` has the `write_manifest` layout |
| BackupSmb.SourceStep | SERV/SMB/backup-smb.py:115-128 | one pass runs only commands |
| BackupSmb.OnlyScriptsMadeExecutable | SERV/SMB/backup-smb.py:122-125 | besides the copies, the loop only runs `chmod 755` on one of the two restore scripts |
| BackupSmb.CopySource | SERV/SMB/backup-smb.py:115-128 | one pass: an existing source is copied once, and a hard failure counts one |
| BackupSmb.CopyNextSource | SERV/SMB/backup-smb.py:115-128 | the loop invariant is kept for pass `i` |
| BackupSmb.CopySources | SERV/SMB/backup-smb.py:114-128 | each existing source is copied once; failures are the hard rsync failures |
| BackupSmb.CredsOf | SERV/SMB/backup-smb.py:131 | no more creds files than entries |
| BackupSmb.CredsAreCredsFiles | SERV/SMB/backup-smb.py:131 | the creds files are exactly the `/etc/samba` entries starting with `creds-` |
| BackupSmb.Prepare | SERV/SMB/backup-smb.py:43-113 | the stop is exactly `Stop`, the sudo pre-check and the 20 GiB floor included; otherwise the run directory `<dest>/SERV/SMB/SMB-<ts>`, and `sources.txt` written last |
| BackupSmb.Copies | SERV/SMB/backup-smb.py:114-144 | every existing source and creds file is copied once; failures are the hard failures |
| BackupSmb.Archive | SERV/SMB/backup-smb.py:147-204 | when `date` succeeds its output names the archive and the run is exactly `date`, the in-place `tar`, and the `chown` hand-back when tar's code is 0; `tar_failed` holds exactly when tar's code is neither 0 nor 1; a failing `date` escapes |
| BackupSmb.CopyAndArchive | SERV/SMB/backup-smb.py:115-204 | with compression, a missing stamp means `date` failed; with one, tar failed exactly when the last tar step's code is neither 0 nor 1; without compression nothing is archived and tar never fails |
| BackupSmb.RunScript | SERV/SMB/backup-smb.py:41-210 | an early stop is `Stop`'s status; past it, the only way to miss the summary is a failing second `date` (Uncaught); a summary has rsync runs = existing sources + existing creds, failures = hard failures, tar failed exactly when the last tar step's code is neither 0 nor 1, and status = Verdict |
| BackupGrub.Absent | SERV/GRUB/backup-grub.py:109-112 | the reported paths are no more than the sources |
| BackupGrub.AbsentMembers | SERV/GRUB/backup-grub.py:109-112 | exactly the missing sources are reported |
| BackupGrub.AbsentExistingSplit | SERV/GRUB/backup-grub.py:109-118 | each source is reported missing or would be copied, never both |
| BackupGrub.SourceLoop | SERV/GRUB/backup-grub.py:108-118 | the loop runs nothing and counts no failure, because the copy sits after `continue`; it reports the missing sources |
| BackupGrub.RunScript | SERV/GRUB/backup-grub.py:41-164 | no rsync run ever happens; an early stop is `Stop`'s status, the 20 GiB floor included; otherwise the summary is reached, with failures 0, the missing sources reported, tar failed exactly when the last tar step's code is not 0, and status 1 exactly when tar failed |
| RestoreSsh.CopyArgv | SERV/SSH/restore-ssh.py:110-152 | the key directory copy is an rsync run |
| RestoreSsh.Refused | SERV/SSH/restore-ssh.py:269-276 | refused install commands are no more than the steps |
| RestoreSsh.Rejected | SERV/SSH/restore-ssh.py:252-289 | rejected `sshd -t` runs are no more than the steps |
| RestoreSsh.Other | SERV/SSH/restore-ssh.py:166-199 | a plain command leaves every tally unchanged |
| RestoreSsh.Prelude | SERV/SSH/restore-ssh.py:35-105 | `--manifest-only` returns 0 with no command run; a declined confirmation returns 0; it lets the run through exactly when systemctl and sudo are found and `sudo -v` succeeds, handing on the run `Entered` |
| RestoreSsh.Admit | SERV/SSH/restore-ssh.py:85-105 | a declined confirmation returns 0 after the prompt; a missing systemctl or sudo, or a failing `sudo -v`, returns 1; it goes on exactly when `Admitted`, handing on the run `Entered` with only `sudo -v` run |
| RestoreSsh.SudoCheckUncounted | SERV/SSH/restore-ssh.py:104 | the first `sudo -v` is none of the counted commands |
| RestoreSsh.EnsureService | SERV/SSH/restore-ssh.py:123-145 | it goes on exactly when `ServiceFound`: `sshd.service` is listed, or the operator agrees and the second listing shows it; by then one listing has run, or two (`ServiceRan`) |
| RestoreSsh.RestoreDir | SERV/SSH/restore-ssh.py:147-158 | a missing backup `.ssh` is a failure with nothing run; otherwise mkdir, then rsync, where a hard failure is a failure |
| RestoreSsh.FixModes | SERV/SSH/restore-ssh.py:166-199 | `chmod 700`, then 644 on `*.pub`, then 600 on the rest, only when `~/.ssh` is a directory |
| RestoreSsh.FlaggedAreKeys | SERV/SSH/restore-ssh.py:204-231 | a name is flagged only when it is a fingerprinted entry whose restored copy is a regular file |
| RestoreSsh.OnlyFingerprints | SERV/SSH/restore-ssh.py:204-225 | the loop runs only `ssh-keygen -lf` on entries, from the backup or the restored directory |
| RestoreSsh.CheckKey | SERV/SSH/restore-ssh.py:204-231 | one entry changes no tally and flags a name per `KeyFlag` |
| RestoreSsh.CheckNextKey | SERV/SSH/restore-ssh.py:204-231 | the loop invariant is kept for entry `i` |
| RestoreSsh.VerifyKeys | SERV/SSH/restore-ssh.py:203-235 | without ssh-keygen nothing runs; otherwise every entry is checked in order, and the flagged names are candidates with a regular restored copy |
| RestoreSsh.Validate | SERV/SSH/restore-ssh.py:251-268 | `sshd -t` runs only when sshd is found; the config is invalid exactly when it fails |
| RestoreSsh.Install | SERV/SSH/restore-ssh.py:269-276 | a `check=True` command is refused exactly when it fails |
| RestoreSsh.Place | SERV/SSH/restore-ssh.py:269-276 | `cp`, `chown`, `chmod`: the first refusal stops the sequence and is one failure |
| RestoreSsh.InstallConfig | SERV/SSH/restore-ssh.py:249-297 | a refused install is one failure; invalid exactly when an `sshd -t` reported errors |
| RestoreSsh.Restart | SERV/SSH/restore-ssh.py:299-311 | enable and start, then restart and `is-active` unless `--no-restart` |
| RestoreSsh.Missing | SERV/SSH/restore-ssh.py:156-164 | at most two pieces are missing, and none exactly when both backup pieces are present |
| RestoreSsh.Restore | SERV/SSH/restore-ssh.py:147-235 | failures are the missing pieces plus the hard rsync failures; with ssh-keygen the mismatches are exactly `KeysFlagged` from the step after the copy and the mode changes (`KeysStart`): the compared keys whose two fingerprints are both printed and differ, in directory order; without it there are none |
| RestoreSsh.Conclude | SERV/SSH/restore-ssh.py:243-311 | with no backup config, nothing fails and nothing is invalid; the run ends with start or `is-active` |
| RestoreSsh.Finish | SERV/SSH/restore-ssh.py:237-311 | it stops exactly when the second `sudo -v` fails, which is then the last step with nothing else done |
| RestoreSsh.Body | SERV/SSH/restore-ssh.py:123-319 | the summary is reached exactly when the service check passes and the second `sudo -v` does not fail; failures are missing + hard rsync failures + refused installs; `validation_failed` holds exactly when there was a mismatch or a rejected `sshd -t`; the mismatches are `KeysFlagged` from `KeysStart` of the step after the service check; status = Verdict |
| RestoreSsh.RunScript | SERV/SSH/restore-ssh.py:35-319 | a manifest-only or declined run returns 0; the summary is reached exactly when the prelude lets the run through, the service check passes and the second `sudo -v` does not fail; its failures, validation and mismatches (`KeysFlagged` from the step after the first `sudo -v` and the service check) are as in `Body`, with at most one rsync run |
| RestoreDots.EnvLineOnce | DOTS/restore-dots.py:101-108 | after the step the file holds the line, keeps its old text up to trailing blanks, and a second step changes nothing |
| RestoreDots.EnvLineIdempotent | DOTS/restore-dots.py:101-108 | run again on the file it wrote, the step writes nothing |
| RestoreDots.MoveAndLink | DOTS/restore-dots.py:74-95 | an existing entry is moved to `.bak-<ts>`, then the symlink is made |
| RestoreDots.AppendEnvLine | DOTS/restore-dots.py:98-108 | the trace gains exactly the environment-line events |
| RestoreDots.PreGate | DOTS/restore-dots.py:72-108 | the moves, links and the environment line happen, and no command or prompt |
| RestoreDots.Paths | DOTS/restore-dots.py:172-173 | entry `i` is `script_dir/items[i]` |
| RestoreDots.SourcesAreItems | DOTS/restore-dots.py:171-177 | a group passes exactly its items that exist beside the script |
| RestoreDots.GroupArgv | DOTS/restore-dots.py:182 | the group copy is an rsync run |
| RestoreDots.Copying | DOTS/restore-dots.py:178-182 | the groups with a source are no more than all groups |
| RestoreDots.Gather | DOTS/restore-dots.py:171-177 | the loop collects the existing item paths, in order |
| RestoreDots.RestoreGroup | DOTS/restore-dots.py:169-185 | a group with no source runs nothing; otherwise one rsync, where a hard failure is one failure |
| RestoreDots.RestoreNextGroup | DOTS/restore-dots.py:169-185 | the loop invariant is kept; each group adds at most one failure |
| RestoreDots.RestoreGroups | DOTS/restore-dots.py:168-185 | every group in order; rsync runs = groups with sources; failures = hard failures |
| RestoreDots.Prepare | DOTS/restore-dots.py:39-108 | without rsync only the banner happened; otherwise the changes before the gate are made |
| RestoreDots.RunScript | DOTS/restore-dots.py:37-189 | without rsync it returns 1; declined returns 0; the summary is reached exactly when rsync is found and the run is not declined, with the gated trace plus the group loop, failures = hard failures, and status = Verdict |
| RestoreSmb.BlankOrWord | SERV/SMB/restore-smb.py:51 | a line that is not blank has a first token, so `line.split()[0]` is defined |
| RestoreSmb.FirstTokenIsUnit | SERV/SMB/restore-smb.py:51 | the first token of a non-blank line is a unit |
| RestoreSmb.UnitIsFirstToken | SERV/SMB/restore-smb.py:51 | every unit is the first token of a non-blank line |
| RestoreSmb.UnitsAreFirstTokens | SERV/SMB/restore-smb.py:51 | the units are exactly those first tokens |
| RestoreSmb.UnitsAreWords | SERV/SMB/restore-smb.py:51 | no unit holds whitespace |
| RestoreSmb.FirstMatch | SERV/SMB/restore-smb.py:55-58 | none exactly when no candidate is a unit; otherwise the earliest candidate that is one |
| RestoreSmb.ResolvesToCandidate | SERV/SMB/restore-smb.py:53-86 | a group resolves only to one of its own candidates |
| RestoreSmb.ResolvedInGroupOrder | SERV/SMB/restore-smb.py:68-86 | the resolved services follow the group order, one candidate per group |
| RestoreSmb.OneServicePerGroup | SERV/SMB/restore-smb.py:68-86 | resolved services number one per group, each a candidate of its group |
| RestoreSmb.ListUnits | SERV/SMB/restore-smb.py:43-51 | the units are the first tokens of the listing's non-blank lines |
| RestoreSmb.ResolveNext | SERV/SMB/restore-smb.py:69-86 | one pass: resolve, or prompt, then wait and resolve again |
| RestoreSmb.ResolveServices | SERV/SMB/restore-smb.py:68-86 | the loop computes `ResolveFrom` and leaves the environment unchanged |
| RestoreSmb.UsersArePrefixes | SERV/SMB/restore-smb.py:96 | the known users are exactly the line prefixes before the first `:` |
| RestoreSmb.AskUser | SERV/SMB/restore-smb.py:89-104 | the run after it is `AfterUser`: with no pdbedit, no prompt; an empty name adds nobody; a non-empty name is added exactly when `pdbedit -L` does not list it |
| RestoreSmb.MissingLines | SERV/SMB/restore-smb.py:172 | no more missing lines than declared lines |
| RestoreSmb.MissingExactly | SERV/SMB/restore-smb.py:172 | a line is appended exactly when it is declared and not already in `/etc/fstab` |
| RestoreSmb.MergeIdempotent | SERV/SMB/restore-smb.py:164-181 | once the appended lines are in the file, a second merge appends nothing |
| RestoreSmb.MergeFstab | SERV/SMB/restore-smb.py:164-183 | no `/etc/fstab` means nothing runs; otherwise `sudo cat`, then one append per missing line, and only declared lines are appended |
| RestoreSmb.Testparm | SERV/SMB/restore-smb.py:221-232 | testparm runs only when `smb.conf` is present and testparm is found; rejected exactly when it fails |
| RestoreSmb.TestAndRestart | SERV/SMB/restore-smb.py:221-247 | `rejected` is testparm's verdict; a rejection is the last step, otherwise the restarts of every service come last |
| RestoreSmb.Install | SERV/SMB/restore-smb.py:106-245 | only declared fstab lines are appended; `rejected` is testparm's verdict (`Verdicts`): never without `smb.conf` or testparm, otherwise exactly when the testparm step failed; a rejection ends the run at testparm, otherwise the restarts close the run |
| RestoreSmb.Body | SERV/SMB/restore-smb.py:68-247 | a group that does not resolve returns 1; the outcome is reached exactly when `Proceeds`: every group resolves and `sudo -v` succeeds after the user question; then the services are `ResolveFrom`'s, one candidate per group, `rejected` is testparm's verdict, and status is 1 exactly when it rejected |
| RestoreSmb.RunScript | SERV/SMB/restore-smb.py:13-247 | declined returns 0; no systemctl returns 1; otherwise the outcome is reached exactly when `Proceeds` from the confirmed run; then one service per group, each a candidate of its group, and status 1 exactly when testparm ran and exited non-zero |
| RestoreGrub.EditArgvs | SERV/GRUB/restore-grub.py:75-127 | seven commands: the backup copy, five `sed` edits and `grub-mkconfig` |
| RestoreGrub.CopyVerdict | SERV/GRUB/restore-grub.py:70-73 | the run goes on exactly on 0; 23 and 24 give 0; any other code is returned as it is |
| RestoreGrub.Edit | SERV/GRUB/restore-grub.py:75-129 | the seven commands run only when `/etc/default/grub` is a file |
| RestoreGrub.Apply | SERV/GRUB/restore-grub.py:56-130 | `Copied`: the copy is the second command; status 0 exactly on 0, 23 or 24, otherwise the code; the trace ends with the copy, followed by the seven edit commands exactly when the copy returned 0 and `/etc/default/grub` is a file |
| RestoreGrub.Prepare | SERV/GRUB/restore-grub.py:14-54 | declined returns 0; a missing directory returns 1 before any command; a failing sudo check returns 1 |
| RestoreGrub.RunScript | SERV/GRUB/restore-grub.py:12-130 | as `Prepare`, then `Copied` when cleared: which commands ran last and the status they give |
| PyStr.LStrip | SERV/SMB/restore-smb.py:34 | `lstrip` removes exactly the leading whitespace |
| PyStr.RStrip | DOTS/restore-dots.py:106 | `rstrip` removes exactly the trailing whitespace |
| PyStr.Strip | MAIN/backup-main.py:119 | the result has no whitespace at either end |
| PyStr.StripPadded | common.py:75 | stripping padded text gives the text |
| PyStr.StripTrimmed | common.py:75 | text with no whitespace at either end is unchanged |
| PyStr.SplitWords | common.py:16 | every token of `split()` is a word |
| PyStr.SplitJoin | common.py:16 | `split()` undoes joining words with single spaces |
| PyStr.BeforeFirst | SERV/SMB/restore-smb.py:96 | `s.split(c)[0]` is the prefix before the first `c`, and holds no `c` |
| PyStr.ConcatReadLines | MAIN/backup-main.py:70-73 | writing back the lines read gives the text |
| PyStr.ReadLinesShape | MAIN/backup-main.py:71 | every line read is non-empty, and all lines but the last end with a newline |
| PyStr.ReadTail | MAIN/backup-main.py:71-73 | re-reading a run of trailing lines gives the same lines |
| PyStr.SplitLines | SERV/SMB/restore-smb.py:171 | no line of `splitlines()` holds a line break |
| PyStr.SplitLinesCons | SERV/SMB/restore-smb.py:171 | a line ended by a newline is the first line |
| PyStr.Lower | SERV/SMB/restore-smb.py:35 | `lower()` keeps the length |
| PyStr.LowerIsLetter | SERV/SMB/restore-smb.py:35 | comparing `lower()` with a letter accepts that letter and its capital |
| PyStr.Decimal | common.py:76 | `str(n)` is all digits |
| PyStr.DecimalValue | common.py:79 | reading back the printed number gives the number |
| PyStr.PyIntDecimal | SERV/SSH/backup-ssh.py:109 | `int(str(n)) == n` and `int("-" + str(n)) == -n` |
| PyStr.ContainsMiddle | DOTS/restore-dots.py:105 | text contains every piece it is built around |
| PyStr.BaseNameShape | SERV/SMB/backup-smb.py:122 | `Path.name` is the longest tail without `/` |
| PyStr.BaseNameJoin | SERV/SMB/backup-smb.py:122 | the name of `a / name` is `name` |
| PyStr.GlobStar | SERV/SSH/restore-ssh.py:204 | `*` matches every name |
| PyStr.GlobPrefix | SERV/SMB/backup-smb.py:131 | `prefix*` matches exactly the names starting with `prefix` |
| PyStr.SliceFrom | MAIN/backup-main.py:71 | `s[start:]` is a suffix of the stated length for any integer `start` |

## Left out

- Printed and logged messages are left out. So are the log files' contents and the redirection of stdout/stderr. Only the log directory's creation and the trim on a signal are modelled.
- The file system is a fixed oracle, given as the answers the scripts' queries get. Copies, moves and writes are recorded in the trace, but later queries do not see their effects.
- External programs are outcomes drawn from a stream: `rsync`, `tar`, `sudo`, `systemctl`, `sed`, `testparm`, `ssh-keygen`, `pdbedit`, `grub-mkconfig` and `date`. What they do to the system is not modelled.
- Real signals are left out. `BackupMain.Interrupt` models the handler's effect when it is called.
- backup-rest's LUKS header backup is left out. It covers the `cryptsetup` check, the `/dev/nvme*n*p*` glob, `isLuks`, `luksHeaderBackup` and `chown` (SERV/REST/backup-rest.py:119-155). The model treats `cryptsetup` as absent.
- RestoreGrub.Edit: the `sed` expressions are kept as argument strings. Their effect on `/etc/default/grub` is not modelled.
- RestoreSmb.Install: the pieces the contract does not name are recorded in the trace, but nothing is proved about them. These are the `/SMB` tree, the `/etc/samba` set-up, the `smb.conf` copy and the creds-file copies. Whether `smb.conf` is present for testparm is read from the oracle as "present before, or copied from the backup".
- RestoreSsh.Finish: the second `shutil.which("sudo")` (SERV/SSH/restore-ssh.py:237-239) always agrees with the first, because tool lookup is fixed.
- RestoreDots.MoveAndLink: `symlink_to` is taken to succeed. Its `OSError` branch does nothing in the source either.
- PyStr.Lower: only ASCII letters are case-folded.
- Choice (`Common.Choice`): `str.isdigit()` and `int()` are taken on the ASCII digits only (common.py:76-79). Python accepts every Unicode decimal digit, so an answer such as "١" selects destination 1 there, while the model exits 1. A character such as "²" passes `isdigit()` but makes `int()` raise `ValueError`, an uncaught error; the model reports Exit(1) for it.
- PyInt (`PyStr.PyInt`): `int()` is taken on an optional sign, ASCII digits with single underscores, and surrounding whitespace. A `--keep` value written in other Unicode decimal digits (SERV/SSH/backup-ssh.py:109) is read as a number by Python but falls back to 5 in the model.
- TrimKeepsLastLines (`BackupMain.TrimKeepsLastLines`): the log is taken as already decoded text, split at "\n" only. The source reads it in text mode with `errors="ignore"` (MAIN/backup-main.py:70-71). Python therefore drops undecodable bytes, and its universal newlines also end lines at "\r" and "\r\n" and write them back as "\n"; the model does neither.
- AppendEnvLine (`RestoreDots.AppendEnvLine`): `read_text` (DOTS/restore-dots.py:104) is taken as the file's text unchanged, without the translation of "\r" and "\r\n" to "\n" that text mode performs.
- ReadMountFstypes (`Common.ReadMountFstypes`): the mount table is split into lines at "\n" only; Python's iteration over the file (common.py:14-15) would also end a line at "\r".
- A command whose executable is missing is modelled as one more outcome from the stream. In the source, `subprocess.run` raises `FileNotFoundError` instead, an uncaught error. Examples are `tar` at SERV/GRUB/backup-grub.py:136 and `date`, which the scripts run without checking for them first.
- `os.getlogin()` is left out; the user name is a parameter. A `date` that fails raises `CalledProcessError`, modelled as the status `Uncaught`. `shutil.move` or `mkdir` raising `OSError` is not modelled.
- scripts/auto-commit.py is not part of this model. It is a git helper outside the backup and restore core.
