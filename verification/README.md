# GP7ActivatorService, modelled in Dafny

GP7ActivatorService is a one-pass agent that runs at login. It does four things in order:

1. It checks whether Guitar Pro 7 is installed. It scans the local-machine Uninstall key in both registry views for a visible entry named "Guitar Pro 7".
2. It adds or removes its own value in the current user's Run key to match that state. The single argument `-uninstall` forces "not installed".
3. It consults a postpone-date file to decide whether the licence reset is due.
4. When the reset is due, it deletes the `guitarpro7` subkey of `Software\Arobas Music` in both views, then the fixed directory `C:\Users\Andre\AppData\Roaming\Arobas Music`. That path is in one named user's profile, not the running user's (`MainProgram.cs:26`).

The model treats the registry and the file system as one immutable value, `Store.Host`. Every step is a pure function from a host and its inputs to a new host and a flag. Each module follows one region of `MainProgram.cs`:

- `Wrappers`: `Option` and `Result`.
- `Store`: the host state, the registry `Key`, the uninstall `Entry`, the fault, and the agent's fixed names.
- `Detection`: region CHECK.
- `Startup`: region STARTUP.
- `Dates`: the `DateTime` values the agent compares and the `dd/MM/yyyy` stamp it writes.
- `Postpone`: region FILE.
- `Reset`: region RESET.
- `Agent`: region MAIN.

Some inputs come from the process or the machine. They are passed in as `Agent.Env`:
- `Application.ProductName`, which names the Run value;
- the agent's own start command;
- today's date;
- the culture, meaning `DateTime.TryParse` (left abstract) and the date separator that `/` stands for in a custom format string.

Faults are values, not exceptions. A missing Uninstall key makes detection fault. That happens before the `try` block, so the invocation ends `Crashed`, even with `-uninstall`. A missing Run key faults inside the `try` block. That invocation ends `Reported` (the error dialog) and nothing has been written.

## Behaviour worth knowing

- The auto-start step returns `true` in every case except when it deletes the value (`MainProgram.cs:104-123`). With the product not installed and no value registered, it therefore reports auto-start as enabled. The postpone step then creates and stamps the file, and the licence is reset, although nothing is installed and nothing is registered (`Agent.NothingInstalledStillResets`). The run after one that removed the registration resets too (`Agent.RerunAfterUnregisterResets`).
- `-uninstall` deletes the postpone file only when the registered value is this agent's command. Otherwise the postpone step runs as if auto-start were enabled (`Agent.ForcedUninstallWhenUnregistered`).
- A missing Uninstall key does not mean "not installed". `GetSubKeyNames` is called on a null key (`MainProgram.cs:66-68`), and the fault is unhandled. The 64-bit view is read only when the 32-bit view does not list the product (`MainProgram.cs:58`).
- The elapsed time is today's day of the month minus the stored day of the month (`MainProgram.cs:148`). Only a stored day of 6 or less can ever be due, and then only on the 26th or later. Suppose the culture parses back the day of its own stamps. Then, over any sequence of runs in which none removes the registration, the reset runs at most twice, however far apart the runs are (`Postpone.AtMostTwoResets`), and two is reached (`Postpone.TwoResetsReachable`). A run that removes the registration deletes the file, and the count starts again.
- The three deletions of the reset are not independent. A fault in one of them leaves the rest undone. Faults there are not modelled (see below).

## Model

| member | source | states |
|---|---|---|
| Detection.IsGP7InstalledRegistry | GP7ActivatorService/MainProgram.cs:61-85 | The scan of one view faults exactly when the Uninstall key is missing. Otherwise it is true exactly when some subkey is visible and has DisplayName "Guitar Pro 7". |
| Detection.IsGP7Installed | GP7ActivatorService/MainProgram.cs:56-59 | Detection is true when the 32-bit view lists the product, or the 32-bit key exists and the 64-bit view lists it. It is false when both keys exist and neither lists it. It faults when the 32-bit key is missing, or the 32-bit view does not list the product and the 64-bit key is missing. |
| Detection.DetectionWhenKeysPresent | GP7ActivatorService/MainProgram.cs:56-85 | With both Uninstall keys present, detection is exactly "either view lists the product". |
| Detection.HiddenEntriesNeverMatch | GP7ActivatorService/MainProgram.cs:87-98 | An entry with a non-empty ReleaseType, a non-empty ParentDisplayName, or any SystemComponent value (0 included) never matches, even when named "Guitar Pro 7". A named entry without those values always matches. |
| Detection.HiddenEntryIgnored | GP7ActivatorService/MainProgram.cs:68-81 | Inserting a hidden entry anywhere among the subkeys never changes the scan's answer. |
| Detection.IsProgramVisible | GP7ActivatorService/MainProgram.cs:87-98 | A visible entry has a non-empty DisplayName. A non-empty ReleaseType, a non-empty ParentDisplayName, or any SystemComponent value hides it. |
| Startup.IsInTray | GP7ActivatorService/MainProgram.cs:108-109 | A registered value is present under the product name and equals the command. An empty command never counts as registered. |
| Startup.EnableAutomaticStartup | GP7ActivatorService/MainProgram.cs:102-124 | Faults exactly when the Run key is missing. Installed and not registered: the command is written and the result is true. Registered and not installed: the value is deleted and the result is false. Otherwise nothing is written and the result is true. Afterwards the value is the command if installed, and is not a registration of the command if not installed. No other value or subkey changes. |
| Startup.ReconcileIdempotent | GP7ActivatorService/MainProgram.cs:106-120 | With a non-empty command, a second call with the same installed flag writes nothing and leaves the key unchanged. |
| Startup.ReconcileConverges | GP7ActivatorService/MainProgram.cs:106-120 | For any command, the key after one call is a fixed point of the next call. |
| Startup.NotInstalledAndUnregisteredReportsEnabled | GP7ActivatorService/MainProgram.cs:104-123 | Not installed and not registered: nothing changes, and the result is still true. |
| Dates.Stamp | GP7ActivatorService/MainProgram.cs:153 | The stamp is 8 digits plus two separators long. For any separator, reading the two-digit day, two-digit month and four-digit year back at their fixed positions gives the date written. |
| Dates.StampPiecesRead | GP7ActivatorService/MainProgram.cs:153 | The zero-padded day, month and year joined by any separator read back as the date they were made from. |
| Dates.StampInjective | GP7ActivatorService/MainProgram.cs:153 | Distinct dates give distinct stamps. |
| Postpone.IsDue | GP7ActivatorService/MainProgram.cs:146-149 | Contents that do not parse are due. A parsed date is due only if its day is the 6th or earlier and today is the 26th or later; a stored day after the 6th is never due. |
| Postpone.ManagePostponeDateFile | GP7ActivatorService/MainProgram.cs:128-164 | Disabled: the file is absent and the result is false. Enabled: the file exists afterwards. The result is true exactly when the contents (empty for a new file) do not parse, or today's day minus the stored day is at least 25. On true the file holds today's stamp; on false an existing file is unchanged. A parsed date can pass only on the 26th or later. |
| Postpone.DisabledIsIdempotent | GP7ActivatorService/MainProgram.cs:156-161 | Disabling twice is disabling once, on any days. |
| Postpone.FirstRunProceeds | GP7ActivatorService/MainProgram.cs:141-153 | With no file, and empty contents that do not parse, an enabled run creates the file, stamps it and allows the reset. |
| Postpone.LateStampNeverDue | GP7ActivatorService/MainProgram.cs:146-149 | If the culture reads back its stamps' day, a stamp written on the 7th or later is never due again on any later days. |
| Postpone.AtMostOneResetAfterStamp | GP7ActivatorService/MainProgram.cs:146-153 | Under the same condition, at most one run after any stamp allows the reset. |
| Postpone.AtMostTwoResets | GP7ActivatorService/MainProgram.cs:141-153 | Under the same condition, any sequence of enabled runs from any file allows the reset at most twice. |
| Postpone.TwoResetsReachable | GP7ActivatorService/MainProgram.cs:141-153 | For a culture that parses its own stamps, runs on the 1st and the 26th both allow the reset. |
| Reset.DeleteGP7LicenceRegistry | GP7ActivatorService/MainProgram.cs:179-195 | A missing vendor key stays missing. A present one loses the `guitarpro7` subkey and keeps every other value and subkey. Without that subkey it is unchanged. |
| Reset.ResetGP7TrialPeriodLicenze | GP7ActivatorService/MainProgram.cs:168-177 | Afterwards no view's vendor key has the product subkey and the directory is gone. Missing vendor keys stay missing. Nothing else in a vendor key changes. The Uninstall keys, Run key and postpone file are untouched. |
| Reset.ResetOnClearedHostIsNoOp | GP7ActivatorService/MainProgram.cs:168-195 | If no licence artifact exists, the reset changes nothing. |
| Reset.ResetIdempotent | GP7ActivatorService/MainProgram.cs:168-195 | Resetting twice is resetting once. |
| Agent.Reconcile | GP7ActivatorService/MainProgram.cs:39-51 | Inside the try block, a missing Run key is reported with the host unchanged. Otherwise the Uninstall keys are untouched and the registration ends in line with the installed flag. Removing the registration removes the postpone file and blocks the reset; in every other case the file exists. The Run key is unchanged when registration and installed state agree, and unregistering deletes the value. In every other case the reset runs exactly when the postpone file is due, and a file that is not due keeps its contents (empty if just created). A reset happens only just after today's stamp and clears the licence. It removes only the `guitarpro7` subkey from each vendor key, and a missing vendor key stays missing. Without it, the licence artifacts are untouched. |
| Agent.RunOnce | GP7ActivatorService/MainProgram.cs:30-52 | The invocation crashes exactly when detection faults, `-uninstall` or not. Otherwise it is the try block with the detected state, or with "not installed" when the single argument is `-uninstall`. |
| Agent.ForcesUninstall | GP7ActivatorService/MainProgram.cs:34 | The override applies exactly when the argument list is the single argument `-uninstall`. |
| Agent.OtherArgumentsIgnored | GP7ActivatorService/MainProgram.cs:34-37 | Any argument list other than the single `-uninstall` behaves like no arguments. |
| Agent.SecondRunSameDayIsQuiet | GP7ActivatorService/MainProgram.cs:30-52 | Take a finished run that leaves a postpone file, a non-empty command, and a culture that reads back its stamps' day. A second run that day, with the same arguments, changes nothing and does not reset. |
| Agent.RerunAfterUnregisterResets | GP7ActivatorService/MainProgram.cs:41-46 | After a run that removes the registration (and so the file), the next run with the same arguments resets the licence on any day. |
| Agent.NothingInstalledStillResets | GP7ActivatorService/MainProgram.cs:30-52 | Nothing installed, nothing registered, no file, no arguments: the file is created and stamped, and the licence is reset. |
| Agent.FirstInstalledRunResets | GP7ActivatorService/MainProgram.cs:30-52 | Installed, nothing registered, no file: the command is registered, the file is stamped, and the licence is reset. |
| Agent.RecentStampChangesNothing | GP7ActivatorService/MainProgram.cs:30-52 | Installed, registered, and the stored day ten days of the month back: the host is unchanged and there is no reset. |
| Agent.ForcedUninstallWhenRegistered | GP7ActivatorService/MainProgram.cs:34-46 | `-uninstall` with the command registered: the value and the postpone file are deleted, and there is no reset. |
| Agent.ForcedUninstallWhenUnregistered | GP7ActivatorService/MainProgram.cs:34-46 | `-uninstall` without the command registered: the Run key is unchanged, the file exists afterwards, and the reset runs exactly when the postpone file is due. |

## Left out

- The registry and file-system APIs, handle disposal and `using` scopes. The host is a value, so every step either changes that value or reports a fault.
- The case-insensitivity of registry key and value names. Names are compared exactly.
- Registry value types. Every value read is taken to have the type the code casts it to, so the `InvalidCastException` of a mistyped value is not modelled.
- Detection.IsGP7InstalledRegistry: a subkey that `OpenSubKey` returns as null (deleted during the scan) would fault in `IsProgramVisible`. The model treats every enumerated subkey as readable.
- Faults of the file system and of the reset's deletions (access denied, a file in use, a missing parent directory for `File.Delete`). Only the missing-key faults are modelled.
- Creating the postpone file's directory (`MainProgram.cs:134-139`). The file is modelled on its own.
- `DateTime.TryParse`. It depends on the culture, so it is an abstract parameter. Lemmas that need it to read back a stamp say so as a hypothesis.
- Calendars other than the Gregorian one in `DateTime.ToString`. The stamp is modelled as the Gregorian day, month and year, each zero-padded.
- `DateTime.Now`. It is an input, read once per run. The code reads the clock twice, once for the comparison (`MainProgram.cs:148`) and once for the stamp (`MainProgram.cs:153`). A run that crosses midnight between the two reads is not modelled.
- The time of day. It plays no part in the comparison.
- The error dialog (`MessageBox.Show`). It is user interface, so it appears only as the `Reported` outcome.
- How the start command, `Application.ProductName`, the postpone file path and the application-data path (fixed to one user's profile) are derived. They are opaque inputs or fixed names.
