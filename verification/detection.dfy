/** Detecting whether Guitar Pro 7 is installed, from the local-machine
    Uninstall keys of both registry views (MainProgram.cs, region CHECK). */
module Detection {
  import opened Wrappers
  import opened Store

  /** `string.IsNullOrEmpty` on a value read with `GetValue`. */
  predicate NullOrEmpty(s: Option<string>)
  {
    s.None? || s.value == ""
  }

  /** The "Programs and Features" visibility filter: a named entry that is not
      an update, not a child of another product and not a system component.
      A SystemComponent value that is set hides the entry whatever it holds. */
  predicate IsProgramVisible(e: Entry): (visible: bool)
    ensures visible ==> e.displayName.Some? && |e.displayName.value| > 0
    ensures e.releaseType.Some? && e.releaseType.value != "" ==> !visible
    ensures e.parentDisplayName.Some? && e.parentDisplayName.value != "" ==> !visible
    ensures e.systemComponent.Some? ==> !visible
  {
    && !NullOrEmpty(e.displayName)
    && NullOrEmpty(e.releaseType)
    && NullOrEmpty(e.parentDisplayName)
    && e.systemComponent.None?
  }

  /** The entry the scan looks for: visible and named exactly "Guitar Pro 7". */
  predicate IsProduct(e: Entry)
  {
    IsProgramVisible(e) && e.displayName == Some(GP7DefaultName)
  }

  /** Some subkey of an Uninstall key is the product. */
  predicate Lists(subkeys: seq<Entry>)
  {
    exists i | 0 <= i < |subkeys| :: IsProduct(subkeys[i])
  }

  /** An Uninstall key that is present and lists the product. */
  predicate ListedIn(uninstall: Option<seq<Entry>>)
  {
    uninstall.Some? && Lists(uninstall.value)
  }

  /** The result of scanning one view, as a value: a missing Uninstall key
      makes `GetSubKeyNames` dereference null. */
  function ScanResult(uninstall: Option<seq<Entry>>): (r: Result<bool, Fault>)
  {
    match uninstall
    case None => Failure(NullReference(UninstallRegistryKeyPath))
    case Some(subkeys) => Success(Lists(subkeys))
  }

  /** The scan of one view: walk the subkeys in enumeration order and stop at
      the first visible one named "Guitar Pro 7". */
  method IsGP7InstalledRegistry(uninstall: Option<seq<Entry>>) returns (r: Result<bool, Fault>)
    ensures r.Failure? <==> uninstall.None?
    ensures r.Success? ==> (r.value <==> exists i | 0 <= i < |uninstall.value| :: IsProduct(uninstall.value[i]))
    ensures r == ScanResult(uninstall)
  {
    if uninstall.None? {
      return Failure(NullReference(UninstallRegistryKeyPath));
    }
    var subkeys := uninstall.value;
    var isInstalled := false;
    var i := 0;
    while i < |subkeys|
      invariant 0 <= i <= |subkeys|
      invariant !isInstalled
      invariant forall j | 0 <= j < i :: !IsProduct(subkeys[j])
    {
      var subKey := subkeys[i];
      if IsProgramVisible(subKey) {
        if subKey.displayName.value == GP7DefaultName {
          isInstalled := true;
          break;
        }
      }
      i := i + 1;
    }
    return Success(isInstalled);
  }

  /** Both views, 32-bit first; `||` short-circuits, so the 64-bit view is not
      read when the 32-bit view already lists the product. */
  function IsGP7Installed(uninstall: PerView<Option<seq<Entry>>>): (r: Result<bool, Fault>)
    ensures r == Success(true) <==> ListedIn(uninstall.r32) || (uninstall.r32.Some? && ListedIn(uninstall.r64))
    ensures r == Success(false) <==>
      uninstall.r32.Some? && uninstall.r64.Some? && !ListedIn(uninstall.r32) && !ListedIn(uninstall.r64)
    ensures r.Failure? <==> uninstall.r32.None? || (!ListedIn(uninstall.r32) && uninstall.r64.None?)
  {
    match ScanResult(uninstall.r32)
    case Failure(f) => Failure(f)
    case Success(true) => Success(true)
    case Success(false) => ScanResult(uninstall.r64)
  }

  /** When both Uninstall keys exist, detection is true exactly when either view
      lists the product. */
  lemma DetectionWhenKeysPresent(uninstall: PerView<Option<seq<Entry>>>)
    requires uninstall.r32.Some? && uninstall.r64.Some?
    ensures IsGP7Installed(uninstall) == Success(Lists(uninstall.r32.value) || Lists(uninstall.r64.value))
  {
  }

  /** An entry hidden for any reason is never taken for the product, even when
      its DisplayName is exactly "Guitar Pro 7"; a visible entry with that name
      always is. */
  lemma HiddenEntriesNeverMatch(e: Entry)
    ensures e.releaseType.Some? && e.releaseType.value != "" ==> !IsProduct(e)
    ensures e.parentDisplayName.Some? && e.parentDisplayName.value != "" ==> !IsProduct(e)
    ensures e.systemComponent.Some? ==> !IsProduct(e)
    ensures (e.displayName == Some(GP7DefaultName) && NullOrEmpty(e.releaseType)
             && NullOrEmpty(e.parentDisplayName) && e.systemComponent.None?) ==> IsProduct(e)
  {
  }

  /** A hidden entry placed anywhere in an Uninstall key never changes the scan. */
  lemma HiddenEntryIgnored(before: seq<Entry>, e: Entry, after: seq<Entry>)
    requires !IsProgramVisible(e)
    ensures Lists(before + [e] + after) <==> Lists(before + after)
  {
    var all := before + [e] + after;
    if Lists(all) {
      var i :| 0 <= i < |all| && IsProduct(all[i]);
      if i < |before| {
        assert (before + after)[i] == all[i];
      } else {
        assert i > |before|;
        assert (before + after)[i - 1] == all[i];
      }
    }
    if Lists(before + after) {
      var i :| 0 <= i < |before + after| && IsProduct((before + after)[i]);
      if i < |before| {
        assert all[i] == (before + after)[i];
      } else {
        assert all[i + 1] == (before + after)[i];
      }
    }
  }
}
