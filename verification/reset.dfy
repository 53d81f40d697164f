/** Clearing Guitar Pro 7's persisted trial state: the `guitarpro7` subkey of
    the vendor key in both registry views, then the vendor's application-data
    directory (MainProgram.cs, region RESET). */
module Reset {
  import opened Wrappers
  import opened Store

  /** One view: when the vendor key exists and has the product subkey, delete
      that subkey's tree; a missing vendor key or subkey is left as it is. */
  function DeleteGP7LicenceRegistry(vendor: Option<Key>): (r: Option<Key>)
    ensures r.None? <==> vendor.None?
    ensures r.Some? ==> WithoutSubkey(vendor.value, r.value, GP7RegistryName)
    ensures vendor.Some? && GP7RegistryName !in vendor.value.subkeys ==> r == vendor
  {
    match vendor
    case None => None
    case Some(root) =>
      if GP7RegistryName in root.subkeys then
        Some(root.(subkeys := root.subkeys - {GP7RegistryName}))
      else
        vendor
  }

  /** No view's vendor key holds the product subkey, and no application-data
      directory remains. */
  predicate LicenceCleared(h: Host)
  {
    && (forall v: View :: h.vendor.Get(v).Some? ==> GP7RegistryName !in h.vendor.Get(v).value.subkeys)
    && !h.appDataDirectory
  }

  /** Both views, 32-bit first, then the directory. Afterwards no licence
      artifact remains; each vendor key keeps everything else, a missing one
      stays missing, and the rest of the host is untouched. */
  function ResetGP7TrialPeriodLicenze(h: Host): (h': Host)
    ensures LicenceCleared(h')
    ensures forall v: View :: h'.vendor.Get(v).None? <==> h.vendor.Get(v).None?
    ensures forall v: View :: h'.vendor.Get(v).Some? ==>
      WithoutSubkey(h.vendor.Get(v).value, h'.vendor.Get(v).value, GP7RegistryName)
    ensures h'.uninstall == h.uninstall && h'.run == h.run && h'.postponeFile == h.postponeFile
  {
    var vendor := PerView(DeleteGP7LicenceRegistry(h.vendor.r32), DeleteGP7LicenceRegistry(h.vendor.r64));
    assert forall v: View :: vendor.Get(v) == DeleteGP7LicenceRegistry(h.vendor.Get(v));
    h.(vendor := vendor, appDataDirectory := false)
  }

  /** A host with no licence artifact is left exactly as it is: every deletion
      tolerates its target's absence. */
  lemma {:induction false} ResetOnClearedHostIsNoOp(h: Host)
    requires LicenceCleared(h)
    ensures ResetGP7TrialPeriodLicenze(h) == h
  {
    assert h.vendor.r32 == h.vendor.Get(Registry32);
    assert h.vendor.r64 == h.vendor.Get(Registry64);
  }

  /** Resetting twice is resetting once. */
  lemma ResetIdempotent(h: Host)
    ensures ResetGP7TrialPeriodLicenze(ResetGP7TrialPeriodLicenze(h)) == ResetGP7TrialPeriodLicenze(h)
  {
    ResetOnClearedHostIsNoOp(ResetGP7TrialPeriodLicenze(h));
  }
}
