# archinstaller in Dafny

A model of the core of `archinstaller`, a Rust program that installs Arch
Linux in stages. The core covers four things:

- the run helpers, which start commands and stream, capture or save their
  output;
- the file helpers (`set_file`, `append_to_file`, `exists`, `confirm`);
- the task bodies of the BIOS installer (`src/installer.rs`), of its UEFI
  variant (`src/installer/boot_kernel.rs`) and of the first-boot user system
  (`src/installer/user_system.rs`);
- the task and stage tables (`src/tasks.rs`, `src/config.rs`,
  `src/stages.rs`) and the outcome handling of `main` (`src/main.rs`).

Everything the program does to the machine is one value, `Machine.World`.
It holds:

- the file system (path to file bytes or directory);
- the environment variables;
- the path of the running executable;
- the installer's output lines;
- a trace of events: commands started, questions asked, chroot hand-offs.

The outside world is a `Machine.Oracle`. It is a record of total functions
that answer each spawned command, each yes/no question and each nested
chroot run. Each answer is looked up by the number of events so far, so a
link can come up on the third poll and not before. A nested chroot run is
told the file system it starts from and answers with its result and the
file system it leaves, since the run it stands for writes files.

`World.fs` holds what the installer writes itself, through `std::fs` and
through `to_file`. A command it starts is an event in the trace with no
effect on `World.fs`, so "writes no file" below means that the installer
itself writes none.

Each task body is a straight-line script of `Script.Action`s. `Script.RunAll`
runs a script and stops at the first error, as the `?` chain does. Tasks with
a loop or a branch (`systemd_network`, `vga`) are functions over the same
helpers.

One error type, `Errors.InstallError`, holds every variant the task bodies
construct:

- `Decline`
- `IoError`
- `EmptyResponse`
- `NoNetwork`
- `InvalidFile`

The installer configuration is the abstract `Configuration.Config`. Its
fields are the system disk, the boot disk, the install disk, the user name,
the user e-mail and the path of the configuration file. The file layout
follows the program: one module per source file or component.

## Model

| member | source | states |
|---|---|---|
| Text.Utf8 | src/utils.rs:30 | the bytes written for a `&str` are at least as many as its characters and at most four per character; they are empty only for the empty text |
| Text.Utf8Concat | src/utils.rs:42-43 | the bytes of a concatenation are the concatenated bytes, so two writes of `s` leave the bytes of `s + s` |
| Text.TrimNewlinesSpec | src/run.rs:44 | what `read` keeps is a prefix of the output that does not end in a line break, and everything it dropped was a line break |
| Errors.Describe | src/main.rs:10-16 | the display text of an error: "user declined to continue" for a decline, "io error: " followed by the fault for an I/O error, and a text naming the path for an invalid file |
| Paths.Push | src/utils.rs:10-13 | `PathBuf::push`: an absolute component replaces the path; otherwise the result extends the old path and ends with the component |
| Paths.FileName | src/config.rs:102-106 | a file name, when there is one, is a non-empty component other than `.` and `..`, with no `/` in it |
| Paths.FileNameOfPush | src/config.rs:102-117 | pushing one normal component onto a directory and then taking the file name gives the component back |
| Paths.JoinPair | src/installer/boot_kernel.rs:115 | collecting a directory and a relative name puts exactly one `/` between them |
| Paths.JoinTriple | src/installer/user_system.rs:259-261 | collecting a directory, a component and a relative rest puts one `/` between each |
| Machine.LogNote | src/utils.rs:65-67 | a note adds one output line and changes nothing else |
| Machine.Shown | src/utils.rs:65-75 | a note is shown behind the `NOTE: ` label and an error message behind the `Error: ` label, each ending in its text; a child's line is shown as it came |
| Utils.Exists | src/utils.rs:9-22 | succeeds exactly when the joined path names an existing non-directory, and then returns that path; otherwise fails with `InvalidFile` of that path |
| Utils.AppendToFile | src/utils.rs:25-34 | succeeds exactly when the file already exists, and then adds the text's bytes after the old contents; a failure is an I/O error that changes no file (in the model's flat file system) |
| Utils.SetFile | src/utils.rs:37-47 | succeeds exactly when the path is not a directory, and then the file holds the text written twice; a failure changes no file (in the model's flat file system) |
| Utils.SetFileOnce | src/utils.rs:37-47 | the corrected `set_file`: on success the file holds exactly the text's bytes |
| Utils.SetFileDoubles | src/utils.rs:42-43 | for a non-empty text the file as written differs from the corrected one and is twice as long |
| Utils.Confirm | src/utils.rs:49-58 | asks once; a yes succeeds, a no fails with `Decline`, a failed interaction is an I/O error; files and output are unchanged |
| Utils.CreateDirAll | src/installer/boot_kernel.rs:112 | succeeds exactly when no file is in the way, and then the path is a directory; a failure is an I/O error that changes nothing |
| Utils.Copy | src/installer/boot_kernel.rs:113-116 | in the model's flat file system, succeeds exactly when the source is a file and the destination is not a directory, and then the destination holds the source's bytes |
| Utils.CopyExe | src/installer/boot_kernel.rs:118-121 | copying the running executable succeeds exactly when it is known and is a file and the destination is not a directory, and then the destination holds its bytes |
| Run.Drain | src/run.rs:87-91 | `lines()` yields the leading lines in order and stops at the first read error, which it reports |
| Run.StreamItemsClean | src/run.rs:86-93 | the merged stream reads cleanly to its end exactly when the child exited with status 0 and every read succeeded |
| Run.PrintAll | src/run.rs:89-91 | each streamed line is printed once, in order, after the earlier output |
| Run.DrainStreamed | src/run.rs:89-91 | on success every line was printed; on failure the lines before the read error were printed and the error is that read error |
| Run.Stream | src/run.rs:81-110 | `exec` and `exec_with_stdin` start the command once with the current environment and write no file themselves; the run succeeds exactly for a clean child; a failed start prints nothing; every failure is an I/O error |
| Run.ReadLinesSpec | src/run.rs:44 | reading a captured stream succeeds exactly when every item is a line, and then yields their texts; otherwise it reports the first fault |
| Run.Captured | src/run.rs:44 | every capture failure is an I/O error |
| Run.CapturedSpec | src/run.rs:40-47 | a capture succeeds exactly for a clean child and then holds the joined lines without trailing line breaks; a failed start, a non-zero exit and a read error are each reported as such |
| Run.ToString | src/run.rs:40-47 | `to_string` starts the command once with the current environment, prints nothing, writes no file itself, and returns the capture of its merged output |
| Run.ExecToFile | src/run.rs:112-127 | succeeds exactly when the child exits 0 with non-empty stdout and the path is not a directory, and then the file holds exactly that stdout; empty stdout is `EmptyResponse`; a failure changes no file (in the model's flat file system) |
| Run.RunPlain | src/run.rs:35-37 | `Wrap::run` starts the command once and writes no note, with the result of `exec` |
| Run.Bracketed | src/run.rs:52-65 | a described run writes the start note first and the done note last only on success; those are its only notes; it starts the command once and writes no file itself |
| Run.ToFile | src/run.rs:68-77 | `to_file` writes the start note and the destination note, captures the stdout, and leaves the files as `exec_to_file` does |
| Script.PerformSound | src/utils.rs:25-58 | every helper causes exactly its own events and starts commands with the current environment; it changes the environment only through `set_var` and the files only through the file helpers, a saved command output and a chroot hand-off; only a confirmation or a chroot hand-off can decline |
| Script.CommandSound | src/run.rs:35-77 | a command action records exactly one start, with the current environment, and writes no file itself and changes no variable |
| Script.FileSound | src/utils.rs:25-47 | a file helper records no event and changes no variable |
| Script.PerformIoError | src/run.rs:81-110 | commands, file helpers, notes and `set_var` fail only with an I/O error |
| Script.Chain | src/installer.rs:66-98 | a `?` chain only adds to the trace and to the output |
| Script.RunAll | src/installer.rs:66-98 | a task body only adds to the trace and to the output |
| Script.ChainMarks | src/installer.rs:66-98 | a task body's events are a prefix of the events its steps plan; a success has all of them, with every question answered yes |
| Script.ChainKeeps | src/installer.rs:19-45 | a body keeps the executable; without `set_var` it keeps the environment and starts every command with it; without file steps or chroot hand-offs it keeps the files |
| Script.ChainDeclines | src/installer.rs:66-82 | a body ends in `Decline` only if one of its steps is a confirmation or a chroot hand-off |
| Script.ChainAppend | src/installer.rs:11-17 | running two step lists back to back is running their concatenation; the second starts only if the first succeeded |
| Script.HaltsAtFirstError | src/installer.rs:66-98 | a failing body stops at some step: the steps before it succeeded, and nothing after it runs |
| Script.Gated | src/installer.rs:66-96 | after a gate, steps that cannot decline start only when the whole gate succeeded with yes answers; a decline comes only from the gate |
| Script.ThenQuiet | src/installer/boot_kernel.rs:122-127 | steps that touch no file keep the files as the earlier steps left them and add exactly their planned events |
| Script.SetFileThenQuiet | src/installer/user_system.rs:16-30 | a `set_file` followed by commands leaves that one file holding the text twice and keeps the environment |
| Script.SetVarReachesChildren | src/installer/user_system.rs:9-13 | `set_var` always succeeds and changes only the environment; every later command receives the new environment |
| Script.CommandStep | src/run.rs:81-110 | one command step records one start with the current environment, its stdin, and no file written by the installer and no variable change |
| Script.ThenAppend | src/utils.rs:25-34 | an append after earlier steps runs only if they succeeded; it succeeds exactly when the file exists and then adds the text at its end |
| Script.RunAllIoErrors | src/run.rs:81-127 | a body made of commands, file helpers, notes and variables fails only with an I/O error |
| Script.CommandsOnly | src/installer.rs:5-9 | a body made only of commands has the installer write no file and change no variable, and fails only with an I/O error; on success it started exactly its commands, in order |
| Script.Appends | src/installer.rs:37-39 | one append per text, each to the same file and with that text |
| Script.AppendsInOrder | src/installer.rs:37-39 | a run of appends succeeds exactly when the file exists, and then the file holds its old bytes followed by the texts in order; otherwise nothing changes |
| Stages.New | src/stages.rs:33-38 | a new registry lists no name and finds none |
| Stages.Get | src/stages.rs:39-41 | `get` finds exactly the registered names, with their functions |
| Stages.Add | src/stages.rs:43-46 | `add` appends the name to the order, maps it to the new function, and leaves every other name as it was |
| Stages.NewConsistent | src/stages.rs:33-38 | a new registry lists exactly the names it registers |
| Stages.AddConsistent | src/stages.rs:43-46 | `add` keeps the listed names equal to the registered ones |
| Stages.ReAddOverwrites | src/stages.rs:43-46 | adding a name twice keeps the later function and lists the name two more times |
| Stages.FromList | src/stages.rs:6-18 | the `stages!` macro lists the names in the order written |
| Stages.FromListGet | src/stages.rs:6-18 | a name the macro does not list is absent; a listed name holds the function of its last entry |
| Configuration.ResolveTask | src/config.rs:64-75 | a task name is accepted exactly when the table has it, with its task; otherwise the error is "there is no task" with the name |
| Configuration.ResolveList | src/config.rs:50-54 | a list resolves exactly when every name is known, keeping length and order; otherwise the error names an unknown entry |
| Configuration.ResolveStages | src/config.rs:46-55 | the stage map resolves exactly when every name in every stage is known; it then has a stage exactly when the document does, with that stage's last list |
| Configuration.ConfigTasks | src/config.rs:7-12 | the table in this file is empty |
| Configuration.EmptyTableAcceptsOnlyEmptyStages | src/config.rs:7-12 | with the empty table a document is accepted exactly when every stage lists no task |
| Configuration.SerializeTask | src/config.rs:76-91 | a task serializes exactly when some entry holds it, and then to a name holding it; otherwise it fails with "failed to serialize task name" |
| Configuration.TaskNameRoundTrip | src/config.rs:64-91 | with an injective table, a name read and written back is the same name, and every table entry can be written |
| Configuration.DeviceFromName | src/config.rs:110-127 | a device name is accepted exactly when `/dev/<name>` names an existing non-directory, and then becomes that path |
| Configuration.DeviceToName | src/config.rs:98-108 | a device path is written as its final component and fails with "invalid filename" when it has none |
| Configuration.DeviceRoundTrip | src/config.rs:98-127 | an accepted one-component device name is written back unchanged |
| Configuration.DeviceCheckIsExists | src/config.rs:115-119 | the device check accepts exactly what `utils::exists` accepts for `/dev` and the name |
| Installer.DownloadBaseRuns | src/installer.rs:5-9 | in `download_base` the installer writes no file itself and it fails only with an I/O error; on success it ran `pacstrap` and nothing else |
| Installer.GatedDisks | src/installer.rs:66-96 | no format or mount runs unless all three questions got a yes; a decline leaves every disk untouched |
| Installer.PrepareGated | src/installer.rs:66-96 | `prepare` formats or mounts nothing unless the operator said yes three times, and after a decline nothing was formatted or mounted |
| Installer.PrepareOrder | src/installer.rs:66-98 | a successful `prepare` asks twice, inspects the network, clock and disks, asks about the chosen disks, formats boot then system disk, and mounts system then boot disk, in exactly that order |
| Installer.BaseCrossesAfterFstab | src/installer.rs:11-17 | `base` hands `base_in_chroot` across the chroot only after non-empty `genfstab` output landed in `/mnt/etc/fstab`; the nested run starts from the files holding that fstab, and its result and files are what `base` ends with; without the hand-off the files are untouched |
| Installer.BootloaderOnlyCrosses | src/installer.rs:47-49 | `bootloader` only hands `bootloader_in_chroot` across the chroot; its result and files are that run's, and the environment is kept |
| Installer.BootloaderInChrootRuns | src/installer.rs:51-63 | in the BIOS `bootloader_in_chroot` the installer writes no file itself; on success it installed grub, ran `grub-install` on the configured install disk, then generated the configuration |
| Installer.NamingEffects | src/installer.rs:35-39 | the naming steps succeed exactly when `/etc/hostname` is not a directory and `/etc/hosts` exists; on success the host name is written twice and the entries follow the old hosts bytes in order; a failure leaves exactly what was done before it |
| Installer.HostsRunTogether | src/installer.rs:37-39 | the three hosts entries as written add no line break at all, so they form a single run-together line |
| Installer.AsLines | src/installer.rs:37-39 | the corrected entries: each entry followed by its own line break |
| Installer.AsLinesJoin | src/installer.rs:37-39 | the corrected entries append the entries joined by line breaks and ended by one |
| Installer.HostsFixedOnOwnLines | src/installer.rs:35-39 | with the correction, a successful run leaves `/etc/hosts` with its old bytes followed by one line per entry |
| Installer.HostsJoined | src/installer.rs:37-39 | the three entries joined by line breaks, spelled out |
| Installer.ChrootSetupEffects | src/installer.rs:19-45 | a body of commands, the naming steps and more commands has the installer write only the hostname and hosts files, as the naming steps do |
| Installer.BaseInChrootFiles | src/installer.rs:19-45 | a successful `base_in_chroot` writes the host name twice to `/etc/hostname`, appends the entries to an existing `/etc/hosts`, and writes no other file itself |
| Installer.BaseInChrootOrder | src/installer.rs:19-45 | a successful `base_in_chroot` runs timezone, clock, locale and microcode commands in that order and nothing else |
| BootKernel.BootloaderInChrootRuns | src/installer/boot_kernel.rs:57-74 | in the UEFI `bootloader_in_chroot` the installer writes no file itself; on success it installed grub with `efibootmgr`, ran the UEFI `grub-install`, then generated the configuration |
| BootKernel.RebootRuns | src/installer/boot_kernel.rs:131-133 | in `reboot` the installer writes no file itself; on success it ran `reboot -h now` and nothing else |
| BootKernel.PrepareGated | src/installer/boot_kernel.rs:77-107 | the UEFI `prepare` formats or mounts nothing without three yes answers; a decline leaves the disks untouched |
| BootKernel.PrepareOrder | src/installer/boot_kernel.rs:77-109 | a successful UEFI `prepare` formats the boot disk FAT32 before the system disk ext4, and mounts the system disk before the boot disk, after the same checks |
| BootKernel.BaseInChrootFiles | src/installer/boot_kernel.rs:21-51 | a successful UEFI `base_in_chroot` has the installer write exactly the hostname file (name twice) and the hosts file (entries appended) |
| BootKernel.BaseInChrootOrder | src/installer/boot_kernel.rs:21-51 | a successful UEFI `base_in_chroot` runs timezone, time sync, clock, locale and microcode, in that order |
| BootKernel.StagingEffects | src/installer/boot_kernel.rs:110-125 | the staging steps start nothing; on success the config and executable existed, and the files are the old ones plus the directory, the two copies and the script holding its text twice |
| BootKernel.CopiesEffects | src/installer/boot_kernel.rs:111-121 | the directory and the two copies record no event; on success both copies hold their sources' bytes |
| BootKernel.StagingReadBack | src/installer/boot_kernel.rs:110-125 | with distinct destinations the staged config, executable and script read back as the config's bytes, the executable's bytes and the script text twice |
| BootKernel.UserSystemStaged | src/installer/boot_kernel.rs:110-130 | a successful `setup_reboot_user_system` leaves the staged config, the staged executable and the doubled script, then runs `chmod +x` on the script |
| BootKernel.StagedPathsDistinct | src/installer/boot_kernel.rs:111-123 | the four staging destinations are pairwise distinct |
| BootKernel.ContinueLineSelects | src/installer/boot_kernel.rs:122-125 | the continuation line runs the staged binary on the `user_system` stage with the staged configuration |
| BootKernel.StagedConfigInRoot | src/installer/boot_kernel.rs:111-124 | the configuration's path in the new root is its staging path without the `/mnt` prefix |
| BootKernel.ContinueScriptGluesPaths | src/installer/boot_kernel.rs:122-125 | the script written twice runs the configuration path into the binary path, so its `--config` argument is not the staged configuration |
| UserSystem.ProxyReachesChildren | src/installer/user_system.rs:9-13 | setting the proxy always succeeds, touches nothing else, and every later command receives `http_proxy` |
| UserSystem.Poll | src/installer/user_system.rs:32-42 | the wait only adds to the trace |
| UserSystem.SystemdNetwork | src/installer/user_system.rs:15-43 | the task only adds to the trace |
| UserSystem.RoundShape | src/installer/user_system.rs:33-34 | one round is the note followed by the captured `ip a` |
| UserSystem.PollShape | src/installer/user_system.rs:32-40 | the wait makes between one and `n` rounds, each one note and one `ip a` with the unchanged environment, and changes nothing else |
| UserSystem.PollSawDown | src/installer/user_system.rs:32-40 | every round but the last saw no link up |
| UserSystem.PollSucceeds | src/installer/user_system.rs:34-37 | the wait succeeds exactly when its last round saw `state UP` |
| UserSystem.PollFailsAtCapture | src/installer/user_system.rs:34 | any failure other than `NoNetwork` is the last round's capture error |
| UserSystem.PollExhausted | src/installer/user_system.rs:32-42 | the wait fails with `NoNetwork` exactly when all `n` rounds saw no link up, and then it made all `n` rounds |
| UserSystem.PollLoop | src/installer/user_system.rs:32-42 | the counted loop computes the wait, and running out takes exactly `n` rounds |
| UserSystem.SetupFailsWithIo | src/installer/user_system.rs:16-30 | the unit file and the two services fail only with an I/O error |
| UserSystem.SetupFiles | src/installer/user_system.rs:16-23 | after a successful setup the unit file holds its text twice, the installer wrote no other file, and the environment is as before |
| UserSystem.NetworkSetupFirst | src/installer/user_system.rs:15-31 | a failed setup ends the task and no `ip a` is started; a successful one ran the two `systemctl` calls and the wait starts from there |
| UserSystem.NoNetworkAfterTenRounds | src/installer/user_system.rs:15-43 | the task fails with `NoNetwork` exactly when the setup succeeded and all ten rounds saw no link up; after the setup it records at most ten events |
| UserSystem.Vga | src/installer/user_system.rs:65-75 | `vga` only adds to the trace |
| UserSystem.VgaChoosesDriver | src/installer/user_system.rs:65-75 | `vga` first starts `lspci`; a failed capture ends it; otherwise exactly one install follows, of the Nvidia packages exactly when the report mentions NVIDIA |
| UserSystem.AccountStepsEvents | src/installer/user_system.rs:188-202 | in the account steps the installer writes no file itself; after `useradd` succeeds, `chpasswd` is fed the user name as its own password |
| UserSystem.AddUserEffects | src/installer/user_system.rs:187-210 | a successful `add_user` created the user, set the password and appended its sudo line to an existing `/etc/sudoers`, the installer writing no other file; the last step fails exactly when the file is missing |
| UserSystem.JoinInHome | src/installer/user_system.rs:259-261 | for a one-component user name, collecting `/home`, the name and a rest gives the formatted home path |
| UserSystem.PostPathsDistinct | src/installer/user_system.rs:256-271 | the four staging destinations in the home are distinct |
| UserSystem.PostInstallStaged | src/installer/user_system.rs:255-295 | a successful `setup_reboot_post_install` leaves the config and executable copies in `~/installer` and the doubled script, then runs the ownership fix and `chmod` |
| UserSystem.PostInstallLineSelects | src/installer/user_system.rs:272-273 | the continuation line selects the `post_install` stage with the staged configuration |
| UserSystem.ChownMissesHome | src/installer/user_system.rs:276-283 | for any user other than `erz`, the staged installer directory does not lie under the directory whose ownership the task fixes |
| UserSystem.FixedChownCoversStaging | src/installer/user_system.rs:255-283 | with the ownership fix on the user's home, every staged path lies under it, whatever the user name |
| UserSystem.FixedStagesAlike | src/installer/user_system.rs:255-295 | if the staging steps fail, the original and the corrected task both end right there; otherwise both leave exactly the files the staging left |
| Tasks.TableEntry | src/tasks.rs:9-19 | a name is in `TASKS` exactly when some insertion used it, and then it holds that insertion's task |
| Tasks.TableKeys | src/tasks.rs:10-18 | the table's names are exactly the six inserted ones |
| Tasks.TableNames | src/tasks.rs:10-18 | every name maps to the installer function of the same name, and every such function is in the table under its own name |
| Tasks.UninsertedAbsent | src/tasks.rs:9-20 | `reboot` and `setup_reboot_user_system` have no entry |
| Tasks.TableInjective | src/tasks.rs:10-18 | distinct names stand for distinct tasks |
| Tasks.ResolvesExactlyTheNames | src/tasks.rs:7-21 | against this table a stage entry resolves exactly when it is one of the six names, to the task of that name |
| Tasks.PrepareStaysOutside | src/installer.rs:66-98 | `prepare` never enters the chroot |
| Tasks.ChrootSelectorsAreTasks | src/tasks.rs:13-18 | every selector a task hands across the chroot is a table entry; `base` hands over `base_in_chroot` and `bootloader` hands over `bootloader_in_chroot` |
| Entry.Finish | src/main.rs:18-27 | status 0 leaves the world untouched; status 1 comes only from an error other than `Decline` and adds one error line: its message starts "installation failed: ", and the line shown starts "Error: installation failed: "; both contain the error's text |
| Entry.FinishClassifies | src/main.rs:20-26 | the exit status is 1 exactly for an error other than `Decline`, and 0 exactly for success or a decline |
| Entry.DeclineLikeOk | src/main.rs:21 | a decline ends the run exactly as success does |
| Entry.ReportsTellErrorsApart | src/main.rs:22-25 | two failures with different error texts write different reports |
| Entry.Main | src/main.rs:18-27 | the start note is written before `install`, and the exit status is 1 exactly when `install` reaches a non-decline error from there |
| Entry.StartNoteFirst | src/main.rs:19 | with an install that only appends output, "Starting Archlinux install" is the first line the run writes, shown as "NOTE: Starting Archlinux install" |

## Left out

- Terminal colours, the `dialoguer` prompts and `prompt` are left out. The `NOTE:` and `Error:` labels are kept (`Machine.Shown`); the colour codes around them are not. The operator's answer is an input (`Oracle.answer`).
- Processes, pipes and the clock are left out. A child's reply is an input (`Oracle.reply`). The one-second `sleep` between network polls does not appear.
- The stage loop of `install` and the body of `with_chroot` are not part of this model. A hand-off is one `Crossed` event. `Oracle.chroot` answers it with a result and the file system afterwards, and `Entry.Main` takes `install` as a parameter.
- Only `set_in_qemu_http_proxy`, `systemd_network`, `vga`, `add_user` and `setup_reboot_post_install` are modelled from `src/installer/user_system.rs`. The rest are package lists and commands with no logic: `essential_packages`, `audio`, `terminal_packages`, `codecs`, `desktop`, `setup_dotfiles`, `desktop_packages`, `cleanup_reboot_hook`, `generate_ssh_keys`, `disable_root_login`, `power_management` and `firewall`.
- `src/installer/post_install.rs` is not part of this model.
- `stages_map::serialize` is `unimplemented!()` in the source and is left out. `Configuration.SerializeTask` models `Wrapper::serialize` by the name of the entry holding the task; the function-pointer comparison is not modelled.
- Some error texts are invented: `EmptyResponse`, `NoNetwork`, a non-zero exit code, and the message of a failed directory write. The variants in `src/main.rs` carry no message for them.
- Errors.Describe: covers the `#[error]` texts of `src/main.rs`; the texts of the other variants are placeholders, and an `io::Error`'s own message is a string input.
- Machine.Quoted: `{:?}` on a path is quotes around the path; escaping of special characters is not modelled.
- Utils.CreateDirAll: models `create_dir_all` on the path itself; its missing ancestors are not tracked.
- UserSystem.PostInstallStaged: assumes the user name is one normal path component (`Paths.SingleComponent`). Collecting `/home`, a name holding `/` or `..`, and the rest gives a different path, which is not modelled.
- What the commands the installer starts do to the disk is not tracked. `World.fs` holds only what the installer writes through `std::fs` and `to_file`. Left untracked: `pacstrap` filling `/mnt`, `mkfs`, `mount` and `mkdir -p`, `hwclock` and `locale-gen`, `grub-install` and `grub-mkconfig`, `systemctl enable` links, and `useradd` and `chpasswd` rewriting the account files. Every "writes no file" in the Model table is about the installer's own writes.
- Script.CommandsOnly: "changes no file" holds of the installer's own writes; what the commands write is not tracked.
- Installer.DownloadBaseRuns: the files `pacstrap` installs into `/mnt` are not tracked.
- Installer.BootloaderInChrootRuns: the boot sector `grub-install` writes and the `/boot/grub/grub.cfg` that `grub-mkconfig` writes are not tracked.
- BootKernel.BootloaderInChrootRuns: the EFI files `grub-install` writes and the `/boot/grub/grub.cfg` that `grub-mkconfig` writes are not tracked.
- BootKernel.RebootRuns: the effect of `reboot -h now` is not modelled beyond the start of the command.
- Installer.ChrootSetupEffects: the files written by the commands around the naming steps are not tracked, only the installer's own writes.
- Installer.BaseInChrootFiles: the `/etc/localtime` link, the clock file and the locale files that `ln`, `hwclock` and `locale-gen` write, and the microcode package, are not tracked.
- BootKernel.BaseInChrootFiles: the effects of `ln`, `timedatectl`, `hwclock`, `locale-gen` and the microcode install are not tracked.
- UserSystem.SetupFiles: the links `systemctl enable` creates are not tracked.
- UserSystem.AccountStepsEvents: the account files and the home directory `useradd` and `chpasswd` write are not tracked.
- UserSystem.AddUserEffects: the account files and the home directory `useradd` and `chpasswd` write are not tracked; only the `/etc/sudoers` append is.
- Utils.AppendToFile: the file system is flat, with no parent directories, permissions or partial writes. A `write_all` that fails after `open` and leaves part of the text is not modelled.
- Utils.SetFile: the file system is flat, with no parent directories, permissions or write failures. `File::create` truncating before a failing `write_all` is not modelled. A failure leaves the files as they were, and a missing parent directory does not make it fail.
- Utils.SetFileOnce: the same file-system abstraction as `SetFile`.
- Run.ExecToFile: `File::create` truncating before a failing `write_all` is not modelled. A missing parent directory does not make it fail, and a failure leaves the files as they were.
- Utils.Copy: a missing destination directory does not make it fail. Copying a file onto itself, which can truncate it, is modelled as keeping its bytes.
- Utils.CopyExe: the same abstraction as `Copy`, including copying onto the running executable itself.
- Environment copying (`for (key, value) in std::env::vars()`) is modelled as the child receiving exactly the installer's environment.
- The `TASKS` table is built once and never changed. In the model it is a function with no inputs, so this holds by construction and needs no lemma.

## Findings

| source | as written | input that shows it | evidently intended | confidence | as-written member | corrected member |
|---|---|---|---|---|---|---|
| src/utils.rs:42-43 | `set_file` writes `s` twice, so the file holds `s + s` | `set_file("/etc/hostname", "wpc")` leaves `wpcwpc`. The continuation script of `setup_reboot_user_system` becomes its line twice with no break, so `--config` takes `/root/installer/config.yaml/root/installer/archinstaller` (`BootKernel.ContinueScriptGluesPaths`) | the file holds `s` once | not executed | Utils.SetFileDoubles | Utils.SetFileOnce |
| src/installer.rs:37-39 | the hosts entries are appended with no line break | `/etc/hosts` gains `127.0.0.1\tlocalhost::1\t\tlocalhost127.0.1.1\twpc.localdomain\twpc` as one line | each entry on its own line | not executed | Installer.HostsRunTogether | Installer.HostsFixedOnOwnLines |
| src/installer/user_system.rs:276-283 | `chown -R <user>:users /home/erz` | user name `alice`: the staged `/home/alice/installer` is not under `/home/erz` | change the ownership of the user's own home `/home/<user>` | not executed | UserSystem.ChownMissesHome | UserSystem.FixedChownCoversStaging |

The task bodies keep the helpers and commands as written, so their lemmas
describe the files the program actually leaves. The corrected definitions
are next to them:

- `Utils.SetFileOnce`;
- `Installer.NamingStepsFixed`, proved in `Installer.HostsFixedOnOwnLines`;
- `UserSystem.SetupRebootPostInstallFixed`, proved in
  `UserSystem.FixedChownCoversStaging` and `UserSystem.FixedStagesAlike`.
