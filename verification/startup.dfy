/** Reconciling the agent's own auto-start value in the current user's Run key
    with the installed state (MainProgram.cs, region STARTUP). */
module Startup {
  import opened Wrappers
  import opened Store

  /** The one registry write a reconciliation performs, if any. */
  datatype Action = NoWrite | SetValue | DeleteValue

  /** The Run key after reconciliation, the `isEnabled` flag handed to the
      postpone step, and the write that was made. */
  datatype Reconciled = Reconciled(run: Key, isEnabled: bool, action: Action)

  /** The Run key holds, under the product name, a non-empty command equal to
      this agent's own command. */
  predicate IsInTray(run: Key, productName: string, command: string): (registered: bool)
    ensures registered ==> productName in run.values && run.values[productName] == command
    ensures command == "" ==> !registered
  {
    productName in run.values && run.values[productName] != "" && run.values[productName] == command
  }

  /** Every value other than `productName`, and every subkey, is the same in
      both keys. */
  predicate OthersUnchanged(before: Key, after: Key, productName: string)
  {
    && after.subkeys == before.subkeys
    && (forall n | n in after.values && n != productName :: n in before.values && after.values[n] == before.values[n])
    && (forall n | n in before.values && n != productName :: n in after.values)
  }

  /** Writes the command when installed and not registered, deletes it when
      registered and not installed, and otherwise leaves the key alone. The
      result is false only after a delete: it is not a report of whether the
      value is present. A missing Run key makes `GetValue` dereference null. */
  function EnableAutomaticStartup(run: Option<Key>, isInstalled: bool, productName: string, command: string)
    : (r: Result<Reconciled, Fault>)
    ensures r.Failure? <==> run.None?
    ensures r.Success? ==> OthersUnchanged(run.value, r.value.run, productName)
    // The write, if any, brings the registration in line with the installed state.
    ensures r.Success? && isInstalled ==>
      productName in r.value.run.values && r.value.run.values[productName] == command
    ensures r.Success? && !isInstalled ==> !IsInTray(r.value.run, productName, command)
    // A write happens only when the registration disagrees with the installed state.
    ensures r.Success? ==> (r.value.action == NoWrite <==> isInstalled == IsInTray(run.value, productName, command))
    ensures r.Success? && r.value.action == NoWrite ==> r.value.run == run.value
    ensures r.Success? && !isInstalled && !IsInTray(run.value, productName, command) ==> r.value.run == run.value
    // Registered but not installed: the value is deleted and the result is false.
    ensures r.Success? && !isInstalled && IsInTray(run.value, productName, command) ==>
      r.value.action == DeleteValue && productName !in r.value.run.values && !r.value.isEnabled
    // Installed but not registered: the command is written and the result is true.
    ensures r.Success? && isInstalled && !IsInTray(run.value, productName, command) ==>
      r.value.action == SetValue && r.value.isEnabled
    // isEnabled is false exactly when the value was deleted.
    ensures r.Success? ==> (r.value.isEnabled <==> r.value.action != DeleteValue)
    ensures r.Success? && r.value.action == DeleteValue ==> productName !in r.value.run.values
  {
    match run
    case None => Failure(NullReference(StartupRegistryKeyPath))
    case Some(key) =>
      var isInTray := IsInTray(key, productName, command);
      if isInstalled && !isInTray then
        Success(Reconciled(key.(values := key.values[productName := command]), true, SetValue))
      else if !isInstalled && isInTray then
        Success(Reconciled(key.(values := key.values - {productName}), false, DeleteValue))
      else
        Success(Reconciled(key, true, NoWrite))
  }

  /** A second reconciliation with the same installed flag writes nothing and
      leaves the key as the first one left it, provided the command is not empty
      (an empty command never counts as registered, so it is rewritten on every
      call, although to the same value). */
  lemma ReconcileIdempotent(run: Key, isInstalled: bool, productName: string, command: string)
    requires command != ""
    ensures var first := EnableAutomaticStartup(Some(run), isInstalled, productName, command).value;
            var second := EnableAutomaticStartup(Some(first.run), isInstalled, productName, command).value;
            second.action == NoWrite && second.run == first.run
  {
  }

  /** Whatever the command, the key a reconciliation leaves is a fixed point of
      the next one. */
  lemma ReconcileConverges(run: Key, isInstalled: bool, productName: string, command: string)
    ensures var first := EnableAutomaticStartup(Some(run), isInstalled, productName, command).value;
            EnableAutomaticStartup(Some(first.run), isInstalled, productName, command).value.run == first.run
  {
  }

  /** With the product not installed and the command not registered, the step
      changes nothing yet still reports true: the postpone step then runs as if
      auto-start were enabled. */
  lemma NotInstalledAndUnregisteredReportsEnabled(run: Key, productName: string, command: string)
    requires !IsInTray(run, productName, command)
    ensures EnableAutomaticStartup(Some(run), false, productName, command) == Success(Reconciled(run, true, NoWrite))
  {
  }
}
