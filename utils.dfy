/** The helpers of the `utils` package: network ID lookup in a genesis
    document, validation of the node and plugin paths, derivation of a
    VM identifier from a VM name, and the timestamped directory name.

    The outside world is replaced by abstract inputs: the result of
    `os.Stat` is a `StatResult` supplied by a `stat` function, the JSON
    decoder's output is a `Decoded` value, the formatted clock reading is
    a string, and `os.MkdirAll` is a function from a path to an outcome. */
module Utils {
  import opened Wrappers

  /** The key looked up in a genesis document. */
  const NetworkIDKey: string := "networkID"

  /** Length in bytes of a VM identifier (`ids.ID` is a `[32]byte`). */
  const IDLen: nat := 32

  /** Errors returned by the helpers. The first four are the package's
      sentinel errors; the others are built with `fmt.Errorf`. */
  datatype Error =
    | InvalidExecPath         // ErrInvalidExecPath
    | NotExists               // ErrNotExists
    | NotExistsPlugin         // ErrNotExistsPlugin
    | NotExistsPluginGenesis  // ErrNotExistsPluginGenesis
      /** "failed to stat <subject> <path> (<cause>)", wrapping the stat error */
    | StatFailed(subject: string, path: string, cause: string)
      /** "couldn't unmarshal genesis: <cause>" */
    | UnmarshalFailed(cause: string)
      /** "couldn't find key <key> in genesis" */
    | KeyNotFound(key: string)
      /** "expected float64 but got <type>" */
    | UnexpectedType(got: string)
      /** "VM name must be <= 32 bytes, found <length>" */
    | NameTooLong(length: nat)
      /** an error reported by the filesystem */
    | OSError(cause: string)
  {
    /** True of the package-level sentinel errors, which callers compare
        against with `errors.Is`. */
    predicate IsSentinel() {
      InvalidExecPath? || NotExists? || NotExistsPlugin? || NotExistsPluginGenesis?
    }
  }

  // ---------------------------------------------------------------------
  // Genesis network ID
  // ---------------------------------------------------------------------

  /** A value decoded by `encoding/json` into an `interface{}`. */
  datatype JValue =
    | JNull
    | JBool(b: bool)
    | JNumber(n: real)   // float64
    | JString(s: string)
    | JArray(elems: seq<JValue>)
    | JObject(members: map<string, JValue>)

  /** What `json.Unmarshal` makes of a genesis document when decoding into a
      `map[string]interface{}`: an error (bad syntax, or a top-level value
      that is not an object), the literal `null` (which leaves the map nil
      without an error), or an object. */
  datatype Decoded =
    | DecodeError(cause: string)
    | DecodedNull
    | DecodedObject(members: map<string, JValue>)

  /** The entries of the decoded map; a nil map has none. */
  function Members(d: Decoded): (m: map<string, JValue>)
    requires !d.DecodeError?
    ensures d.DecodedNull? ==> forall k :: k !in m
    ensures d.DecodedObject? ==> m == d.members
  {
    if d.DecodedObject? then d.members else map[]
  }

  /** The dynamic type name `%T` prints for a decoded value. */
  function TypeName(v: JValue): (name: string)
    ensures name == "float64" <==> v.JNumber?
  {
    match v
    case JNull => "<nil>"
    case JBool(_) => "bool"
    case JNumber(_) => "float64"
    case JString(_) => "string"
    case JArray(_) => "[]interface {}"
    case JObject(_) => "map[string]interface {}"
  }

  /** `NetworkIDFromGenesis`: the decoded number under "networkID", paired
      with a nil error, or 0 paired with the first failure among: the
      document does not decode, the key is absent, the value is not a
      number. */
  function NetworkIDFromGenesis(genesis: Decoded): (r: (real, Outcome<Error>))
    // a decoding failure is reported before any key lookup
    ensures genesis.DecodeError? ==> r.1 == Fail(UnmarshalFailed(genesis.cause))
    // then a missing key
    ensures !genesis.DecodeError? && NetworkIDKey !in Members(genesis) ==>
              r.1 == Fail(KeyNotFound(NetworkIDKey))
    // then a value of the wrong type, named by its dynamic type
    ensures !genesis.DecodeError? && NetworkIDKey in Members(genesis)
            && !Members(genesis)[NetworkIDKey].JNumber? ==>
              r.1 == Fail(UnexpectedType(TypeName(Members(genesis)[NetworkIDKey])))
              && r.1.error.got != "float64"
    // success exactly when a number is stored under the key, and then it is that number
    ensures r.1.Pass? <==> !genesis.DecodeError? && NetworkIDKey in Members(genesis)
                           && Members(genesis)[NetworkIDKey].JNumber?
    ensures r.1.Pass? ==> r.0 == Members(genesis)[NetworkIDKey].n
    ensures r.1.Fail? ==> r.0 == 0.0 && !r.1.error.IsSentinel()
  {
    if genesis.DecodeError? then (0.0, Fail(UnmarshalFailed(genesis.cause)))
    else
      var m := Members(genesis);
      if NetworkIDKey !in m then (0.0, Fail(KeyNotFound(NetworkIDKey)))
      else
        var v := m[NetworkIDKey];
        if !v.JNumber? then (0.0, Fail(UnexpectedType(TypeName(v))))
        else (v.n, Pass)
  }

  /** Only the "networkID" entry matters: two decodable documents that agree
      on it (present with the same value, or absent from both) give the same
      result, whatever else they hold. */
  lemma NetworkIDReadsOnlyKey(g1: Decoded, g2: Decoded)
    requires !g1.DecodeError? && !g2.DecodeError?
    requires NetworkIDKey in Members(g1) <==> NetworkIDKey in Members(g2)
    requires NetworkIDKey in Members(g1) ==>
               Members(g1)[NetworkIDKey] == Members(g2)[NetworkIDKey]
    ensures NetworkIDFromGenesis(g1) == NetworkIDFromGenesis(g2)
  {
  }

  // ---------------------------------------------------------------------
  // Path validation
  // ---------------------------------------------------------------------

  /** The classification of the error returned by `os.Stat`: nil, an error
      for which `errors.Is(err, fs.ErrNotExist)` holds, or any other error. */
  datatype StatResult = Found | NotExist | StatError(cause: string)

  /** The error handling shared by every stat in this file: nil on success,
      the given sentinel when the file does not exist, and otherwise a
      wrapping error naming what was being checked. */
  function ClassifyStat(st: StatResult, missing: Error, subject: string, path: string): (r: Outcome<Error>)
    requires missing.IsSentinel()
    ensures r.Pass? <==> st.Found?
    ensures r == Fail(missing) <==> st.NotExist?
    ensures st.StatError? ==> r == Fail(StatFailed(subject, path, st.cause)) && !r.error.IsSentinel()
  {
    match st
    case Found => Pass
    case NotExist => Fail(missing)
    case StatError(cause) => Fail(StatFailed(subject, path, cause))
  }

  /** The paths `CheckExecPath` passes to `os.Stat`, in order. */
  function ExecProbes(exec: string): (probes: seq<string>)
    ensures probes == [] <==> exec == ""
    ensures probes != [] ==> probes == [exec]
  {
    if exec == "" then [] else [exec]
  }

  /** `CheckExecPath`: the empty path is invalid; otherwise the path must
      exist, and a missing file is told apart from other stat failures. */
  function CheckExecPath(exec: string, stat: string -> StatResult): (r: Outcome<Error>)
    ensures r == Fail(InvalidExecPath) <==> exec == ""
    ensures r.Pass? <==> exec != "" && stat(exec).Found?
    ensures r == Fail(NotExists) <==> exec != "" && stat(exec).NotExist?
    ensures exec != "" && stat(exec).StatError? ==>
              r == Fail(StatFailed("exec", exec, stat(exec).cause)) && !r.error.IsSentinel()
    ensures r.Fail? ==> r.error == InvalidExecPath || r.error == NotExists || r.error.StatFailed?
  {
    if exec == "" then Fail(InvalidExecPath)
    else ClassifyStat(stat(exec), NotExists, "exec", exec)
  }

  /** The empty path is rejected without consulting the filesystem, and a
      non-empty one depends on nothing but the stat of that path. */
  lemma CheckExecPathReadsOnlyProbes(exec: string, stat1: string -> StatResult, stat2: string -> StatResult)
    requires forall p :: p in ExecProbes(exec) ==> stat1(p) == stat2(p)
    ensures CheckExecPath(exec, stat1) == CheckExecPath(exec, stat2)
  {
  }

  /** The paths `CheckPluginPaths` passes to `os.Stat`, in order: the genesis
      path is examined only once the plugin executable has been found. */
  function PluginProbes(pluginExec: string, genesisPath: string, stat: string -> StatResult): (probes: seq<string>)
    ensures |probes| >= 1 && probes[0] == pluginExec
  {
    if stat(pluginExec).Found? then [pluginExec, genesisPath] else [pluginExec]
  }

  /** `CheckPluginPaths`: the plugin executable is checked first and the
      plugin genesis second, each missing file with its own sentinel. */
  function CheckPluginPaths(pluginExec: string, genesisPath: string, stat: string -> StatResult): (r: Outcome<Error>)
    // a failing executable stat decides the result
    ensures !stat(pluginExec).Found? ==> r == ClassifyStat(stat(pluginExec), NotExistsPlugin, "plugin exec", pluginExec)
    ensures r == Fail(NotExistsPlugin) <==> stat(pluginExec).NotExist?
    // the genesis sentinel only once the executable was found
    ensures r == Fail(NotExistsPluginGenesis) <==> stat(pluginExec).Found? && stat(genesisPath).NotExist?
    ensures stat(pluginExec).Found? ==>
              r == ClassifyStat(stat(genesisPath), NotExistsPluginGenesis, "plugin genesis", genesisPath)
    // nil only when both stats succeed
    ensures r.Pass? <==> stat(pluginExec).Found? && stat(genesisPath).Found?
    ensures r.Fail? ==> r.error in {NotExistsPlugin, NotExistsPluginGenesis} || r.error.StatFailed?
  {
    var execCheck := ClassifyStat(stat(pluginExec), NotExistsPlugin, "plugin exec", pluginExec);
    if execCheck.Fail? then execCheck
    else ClassifyStat(stat(genesisPath), NotExistsPluginGenesis, "plugin genesis", genesisPath)
  }

  /** The result depends only on the stats of the paths actually probed:
      when the plugin executable is not found, the genesis path is never
      looked at. */
  lemma CheckPluginPathsReadsOnlyProbes(pluginExec: string, genesisPath: string,
                                        stat1: string -> StatResult, stat2: string -> StatResult)
    requires forall p :: p in PluginProbes(pluginExec, genesisPath, stat1) ==> stat1(p) == stat2(p)
    ensures PluginProbes(pluginExec, genesisPath, stat1) == PluginProbes(pluginExec, genesisPath, stat2)
    ensures CheckPluginPaths(pluginExec, genesisPath, stat1) == CheckPluginPaths(pluginExec, genesisPath, stat2)
  {
  }

  // ---------------------------------------------------------------------
  // VM identifier
  // ---------------------------------------------------------------------

  /** `ids.ID`: exactly 32 bytes. */
  type ID = b: seq<bv8> | |b| == IDLen witness seq(32, _ => 0)

  /** `ids.Empty`, the all-zero identifier. */
  const Empty: ID := seq(IDLen, _ => 0)

  /** The identifier a VM name stands for: its bytes, left-aligned and
      followed by zero bytes up to 32. */
  function PaddedName(name: seq<bv8>): (id: ID)
    requires |name| <= IDLen
    ensures id[..|name|] == name
    ensures forall i | |name| <= i < IDLen :: id[i] == 0
  {
    name + seq(IDLen - |name|, _ => 0)
  }

  /** The builtin `copy(dst, src)`: copies `min(len(dst), len(src))` bytes
      to the front of `dst` and returns that count. */
  method Copy(dst: array<bv8>, src: seq<bv8>) returns (n: nat)
    modifies dst
    ensures n == if dst.Length < |src| then dst.Length else |src|
    ensures dst[..n] == src[..n]
    ensures dst[n..] == old(dst[n..])
  {
    n := if dst.Length < |src| then dst.Length else |src|;
    for i := 0 to n
      invariant dst[..i] == src[..i]
      invariant dst[i..] == old(dst[i..])
    {
      dst[i] := src[i];
    }
  }

  /** `VMID`: a name of at most 32 bytes becomes the 32-byte buffer holding
      the name followed by zero bytes; a longer name is rejected and the
      empty identifier returned. `ids.ToID` is taken to wrap the 32-byte
      buffer unchanged. */
  method VMID(name: seq<bv8>) returns (id: ID, err: Outcome<Error>)
    ensures err.Fail? <==> |name| > IDLen
    ensures err.Fail? ==> err.error == NameTooLong(|name|) && id == Empty
    ensures err.Pass? ==> id[..|name|] == name
    ensures err.Pass? ==> forall i | |name| <= i < IDLen :: id[i] == 0
  {
    if |name| > IDLen {
      return Empty, Fail(NameTooLong(|name|));
    }
    var b := new bv8[IDLen](_ => 0);  // make([]byte, 32)
    var n := Copy(b, name);
    id, err := b[..], Pass;
  }

  /** `VMID` is deterministic: its success contract leaves exactly one
      identifier possible for a name, the padded name. */
  lemma VMIDDeterministic(name: seq<bv8>, id: ID)
    requires |name| <= IDLen
    requires id[..|name|] == name
    requires forall i | |name| <= i < IDLen :: id[i] == 0
    ensures id == PaddedName(name)
  {
  }

  /** A name of exactly 32 bytes is its own identifier, with no padding. */
  lemma FullNameNotPadded(name: seq<bv8>)
    requires |name| == IDLen
    ensures PaddedName(name) == name
  {
  }

  /** The empty name maps to the same bytes as `ids.Empty`. */
  lemma EmptyNameIsEmptyID()
    ensures PaddedName([]) == Empty
  {
  }

  /** Names that do not end in a zero byte never share an identifier. */
  lemma PaddedNameInjective(a: seq<bv8>, b: seq<bv8>)
    requires |a| <= IDLen && |b| <= IDLen
    requires a == [] || a[|a| - 1] != 0
    requires b == [] || b[|b| - 1] != 0
    requires PaddedName(a) == PaddedName(b)
    ensures a == b
  {
  }

  /** Trailing zero bytes are lost: the names "a" and "a\x00" share an
      identifier. */
  lemma TrailingZeroCollides()
    ensures PaddedName([0x61]) == PaddedName([0x61, 0x00])
  {
  }

  // ---------------------------------------------------------------------
  // Timestamped directory
  // ---------------------------------------------------------------------

  /** The directory name built by `MkDirWithTimestamp`: the prefix, an
      underscore, then the formatted time. */
  function DirName(prefix: string, timestamp: string): (name: string)
    ensures |name| == |prefix| + 1 + |timestamp|
    ensures name[..|prefix| + 1] == prefix + "_"
    ensures name[|prefix| + 1..] == timestamp
  {
    prefix + "_" + timestamp
  }

  /** Two different clock readings give two different names for one prefix. */
  lemma DirNameDistinct(prefix: string, t1: string, t2: string)
    requires t1 != t2
    ensures DirName(prefix, t1) != DirName(prefix, t2)
  {
  }

  /** `MkDirWithTimestamp`: `timestamp` is the formatted clock reading and
      `mkdirAll` the outcome of creating a directory. The name is returned
      whether or not the directory could be created, together with
      exactly the error creating that name produced. */
  function MkDirWithTimestamp(prefix: string, timestamp: string, mkdirAll: string -> Outcome<Error>): (r: (string, Outcome<Error>))
    ensures r.0 == DirName(prefix, timestamp)
    ensures r.0[..|prefix| + 1] == prefix + "_"
    ensures r.1 == mkdirAll(r.0)
  {
    var dirName := DirName(prefix, timestamp);
    (dirName, mkdirAll(dirName))
  }
}
