/** One invocation of the agent: detect, apply the `-uninstall` override,
    reconcile auto-start, consult the postpone file, and reset the licence when
    allowed (MainProgram.cs, region MAIN). */
module Agent {
  import opened Wrappers
  import opened Store
  import opened Dates
  import opened Detection
  import opened Startup
  import opened Postpone
  import opened Reset

  /** What the agent takes from its process and machine besides the host state:
      `Application.ProductName` (the Run value's name), the command that starts
      this agent, the current date and the current culture. */
  datatype Env = Env(productName: string, startInTrayCommand: string, now: Date, culture: Culture)

  /** How an invocation ends.
      - Crashed: detection faulted before the try block; the fault is unhandled.
      - Reported: a fault inside the try block was shown in the error dialog.
      - Finished: the sequence completed; `reset` says whether the licence reset ran. */
  datatype Outcome = Crashed(fault: Fault) | Reported(fault: Fault, host: Host) | Finished(host: Host, reset: bool)

  /** Exactly one argument, equal to `-uninstall`. */
  predicate ForcesUninstall(args: seq<string>): (forced: bool)
    ensures forced <==> args == [ArgumentValue]
  {
    |args| == ArgumentNumber && args[0] == ArgumentValue
  }

  /** The detected state after the override: installed, and not forced out. */
  predicate EffectivelyInstalled(h: Host, args: seq<string>)
  {
    IsGP7Installed(h.uninstall) == Success(true) && !ForcesUninstall(args)
  }

  /** The try block: reconcile auto-start, then gate and perform the reset. A
      missing Run key is reported before anything is written. */
  function Reconcile(h: Host, isInstalled: bool, env: Env): (o: Outcome)
    ensures o.Crashed? == false
    ensures o.Reported? <==> h.run.None?
    ensures o.Reported? ==> o.host == h
    ensures o.Finished? ==> o.host.uninstall == h.uninstall && o.host.run.Some?
    ensures o.Finished? ==> OthersUnchanged(h.run.value, o.host.run.value, env.productName)
    // The registration ends in line with the installed state.
    ensures o.Finished? && isInstalled ==>
      env.productName in o.host.run.value.values && o.host.run.value.values[env.productName] == env.startInTrayCommand
    ensures o.Finished? && !isInstalled ==> !IsInTray(o.host.run.value, env.productName, env.startInTrayCommand)
    // The Run key changes only when registration and installed state disagree;
    // unregistering deletes the value.
    ensures o.Finished? && isInstalled == IsInTray(h.run.value, env.productName, env.startInTrayCommand) ==>
      o.host.run == h.run
    ensures o.Finished? && !isInstalled && IsInTray(h.run.value, env.productName, env.startInTrayCommand) ==>
      env.productName !in o.host.run.value.values
    // Removing the registration also removes the postpone file and blocks the reset.
    ensures o.Finished? && !isInstalled && IsInTray(h.run.value, env.productName, env.startInTrayCommand) ==>
      o.host.postponeFile.None? && !o.reset
    // Otherwise the postpone file exists afterwards.
    ensures o.Finished? && !(!isInstalled && IsInTray(h.run.value, env.productName, env.startInTrayCommand)) ==>
      o.host.postponeFile.Some?
    // Otherwise the reset runs exactly when the postpone file is due, and a file
    // that is not due keeps its contents (empty when it has just been created).
    ensures o.Finished? && !(!isInstalled && IsInTray(h.run.value, env.productName, env.startInTrayCommand)) ==>
      (o.reset <==> IsDue(ContentsAfterCreate(h.postponeFile), env.now, env.culture))
    ensures o.Finished? && !o.reset && o.host.postponeFile.Some? ==>
      o.host.postponeFile == Some(ContentsAfterCreate(h.postponeFile))
    // The reset runs only right after today's stamp was written, and clears the licence.
    ensures o.Finished? && o.reset ==>
      LicenceCleared(o.host) && o.host.postponeFile == Some(Stamp(env.now, env.culture.dateSeparator))
    // The reset removes only the product subkey from each vendor key, and a
    // missing vendor key stays missing.
    ensures o.Finished? && o.reset ==> forall v: View ::
      && (o.host.vendor.Get(v).None? <==> h.vendor.Get(v).None?)
      && (o.host.vendor.Get(v).Some? ==> WithoutSubkey(h.vendor.Get(v).value, o.host.vendor.Get(v).value, GP7RegistryName))
    // Without the reset, the licence artifacts are untouched.
    ensures o.Finished? && !o.reset ==> o.host.vendor == h.vendor && o.host.appDataDirectory == h.appDataDirectory
  {
    match EnableAutomaticStartup(h.run, isInstalled, env.productName, env.startInTrayCommand)
    case Failure(fault) => Reported(fault, h)
    case Success(startup) =>
      var gate := ManagePostponeDateFile(h.postponeFile, startup.isEnabled, env.now, env.culture);
      var h' := h.(run := Some(startup.run), postponeFile := gate.file);
      if gate.isManaged then Finished(ResetGP7TrialPeriodLicenze(h'), true)
      else Finished(h', false)
  }

  /** `Main`: detection runs first and outside the try block, so its fault is
      unhandled even with `-uninstall`; the override then forces "not installed". */
  function RunOnce(h: Host, args: seq<string>, env: Env): (o: Outcome)
    ensures o.Crashed? <==> IsGP7Installed(h.uninstall).Failure?
    ensures !o.Crashed? ==> o == Reconcile(h, EffectivelyInstalled(h, args), env)
    ensures ForcesUninstall(args) && !o.Crashed? ==> o == Reconcile(h, false, env)
  {
    match IsGP7Installed(h.uninstall)
    case Failure(fault) => Crashed(fault)
    case Success(detected) =>
      var isInstalled := if ForcesUninstall(args) then false else detected;
      Reconcile(h, isInstalled, env)
  }

  /** Any argument list other than the single `-uninstall` flag is ignored. */
  lemma OtherArgumentsIgnored(h: Host, args: seq<string>, env: Env)
    requires !ForcesUninstall(args)
    ensures RunOnce(h, args, env) == RunOnce(h, [], env)
  {
  }

  /** A second invocation on the same day, with the same arguments, after one
      that finished and left a postpone file, changes nothing and does not reset,
      provided the command is not empty and the culture reads back the day of
      its own stamps. */
  lemma SecondRunSameDayIsQuiet(h: Host, args: seq<string>, env: Env)
    requires env.startInTrayCommand != ""
    requires ReadsBackDay(env.culture)
    requires RunOnce(h, args, env).Finished? && RunOnce(h, args, env).host.postponeFile.Some?
    ensures var h1 := RunOnce(h, args, env).host;
            RunOnce(h1, args, env) == Finished(h1, false)
  {
  }

  /** A run that removes the registration also deletes the postpone file; the
      next run, with the same arguments and the product still not installed,
      finds nothing registered, reports auto-start as enabled, recreates the
      empty file and resets the licence. */
  lemma RerunAfterUnregisterResets(h: Host, args: seq<string>, env: Env, later: Date)
    requires env.culture.parse("").None?
    requires RunOnce(h, args, env).Finished? && RunOnce(h, args, env).host.postponeFile.None?
    ensures var h1 := RunOnce(h, args, env).host;
            var o := RunOnce(h1, args, env.(now := later));
            o.Finished? && o.reset
  {
  }

  /** Nothing installed, nothing registered, no postpone file, no arguments: the
      not-installed step still reports auto-start as enabled, so the file is
      created and stamped and the licence is reset. */
  lemma NothingInstalledStillResets(h: Host, env: Env)
    requires ScanResult(h.uninstall.r32) == Success(false) && ScanResult(h.uninstall.r64) == Success(false)
    requires h.run.Some? && env.productName !in h.run.value.values
    requires h.postponeFile.None?
    requires env.culture.parse("").None?
    ensures RunOnce(h, [], env) ==
      Finished(ResetGP7TrialPeriodLicenze(h.(postponeFile := Some(Stamp(env.now, env.culture.dateSeparator)))), true)
  {
  }

  /** First run after installation: the command is registered, the file is
      created and stamped, and the licence is reset. */
  lemma FirstInstalledRunResets(h: Host, env: Env)
    requires ListedIn(h.uninstall.r32)
    requires h.run.Some? && env.productName !in h.run.value.values
    requires h.postponeFile.None?
    requires env.culture.parse("").None?
    ensures var run := h.run.value.(values := h.run.value.values[env.productName := env.startInTrayCommand]);
            var stamped := h.(run := Some(run), postponeFile := Some(Stamp(env.now, env.culture.dateSeparator)));
            RunOnce(h, [], env) == Finished(ResetGP7TrialPeriodLicenze(stamped), true)
  {
  }

  /** Installed, registered, and stamped ten days of the month ago: nothing
      changes and the licence is not reset. */
  lemma RecentStampChangesNothing(h: Host, env: Env, stored: Date)
    requires ListedIn(h.uninstall.r32)
    requires h.run.Some? && IsInTray(h.run.value, env.productName, env.startInTrayCommand)
    requires h.postponeFile.Some? && env.culture.parse(h.postponeFile.value) == Some(stored)
    requires env.now.day - stored.day == 10
    ensures RunOnce(h, [], env) == Finished(h, false)
  {
  }

  /** `-uninstall` with the command registered: the value is deleted, the
      postpone file is deleted, and there is no reset. */
  lemma ForcedUninstallWhenRegistered(h: Host, env: Env)
    requires IsGP7Installed(h.uninstall).Success?
    requires h.run.Some? && IsInTray(h.run.value, env.productName, env.startInTrayCommand)
    ensures var run := h.run.value.(values := h.run.value.values - {env.productName});
            RunOnce(h, [ArgumentValue], env) == Finished(h.(run := Some(run), postponeFile := None), false)
  {
  }

  /** `-uninstall` without the command registered: the Run key is left alone and
      the postpone step runs as if auto-start were enabled, so it may reset. */
  lemma ForcedUninstallWhenUnregistered(h: Host, env: Env)
    requires IsGP7Installed(h.uninstall).Success?
    requires h.run.Some? && !IsInTray(h.run.value, env.productName, env.startInTrayCommand)
    ensures var o := RunOnce(h, [ArgumentValue], env);
            && o.Finished? && o.host.run == h.run && o.host.postponeFile.Some?
            && (o.reset <==> IsDue(ContentsAfterCreate(h.postponeFile), env.now, env.culture))
  {
  }
}
