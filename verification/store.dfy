/** The parts of the Windows registry and of the file system that the agent
    touches, as one immutable value, together with the agent's fixed names. */
module Store {
  import opened Wrappers

  // Fixed names of the agent (MainProgram.cs, region GLOBAL_VARIABLES).
  const ArgumentNumber: nat := 1
  const ArgumentValue: string := "-uninstall"
  const GP7DefaultName: string := "Guitar Pro 7"
  const UninstallRegistryKeyPath: string := @"SOFTWARE\Microsoft\Windows\CurrentVersion\Uninstall"
  const StartupRegistryKeyPath: string := @"SOFTWARE\Microsoft\\Windows\CurrentVersion\Run"
  const MinimumPostponeDays: int := 25
  const GP7RegistryKeyPath: string := @"Software\Arobas Music"
  const GP7RegistryName: string := "guitarpro7"

  /** The two architecture views of a registry hive. */
  datatype View = Registry32 | Registry64

  /** One copy of some registry state for each view. */
  datatype PerView<T> = PerView(r32: T, r64: T) {

    function Get(v: View): T
    {
      match v
      case Registry32 => r32
      case Registry64 => r64
    }
  }

  /** A registry key: its named string values and its named subkeys. */
  datatype Key = Key(values: map<string, string>, subkeys: map<string, Key>)

  /** The four values of an uninstall subkey that the visibility filter reads;
      None stands for a value that is not set on the subkey. */
  datatype Entry = Entry(
    displayName: Option<string>,
    releaseType: Option<string>,
    systemComponent: Option<int>,
    parentDisplayName: Option<string>)

  /** A fault the agent can raise: a member called on a registry key that
      `OpenSubKey` reported missing (a NullReferenceException). */
  datatype Fault = NullReference(keyPath: string)

  /** Everything the agent reads or writes.
      - uninstall: the local-machine Uninstall key of each view, as its subkeys
        in enumeration order; None when the key itself is missing.
      - run: the current user's Run key; None when it is missing.
      - vendor: the current user's `Software\Arobas Music` key of each view;
        None when it is missing.
      - postponeFile: the contents of the postpone-date file, None when absent.
      - appDataDirectory: whether the fixed directory `C:\Users\Andre\AppData\Roaming\Arobas Music`
        exists; it is one named user's profile, not the running user's. */
  datatype Host = Host(
    uninstall: PerView<Option<seq<Entry>>>,
    run: Option<Key>,
    vendor: PerView<Option<Key>>,
    postponeFile: Option<string>,
    appDataDirectory: bool)

  /** `after` is `before` with the subkey `name` (and its whole tree) removed
      and nothing else changed. */
  predicate WithoutSubkey(before: Key, after: Key, name: string)
  {
    && after.values == before.values
    && name !in after.subkeys
    && (forall n | n in after.subkeys :: n in before.subkeys && after.subkeys[n] == before.subkeys[n])
    && (forall n | n in before.subkeys && n != name :: n in after.subkeys)
  }
}
