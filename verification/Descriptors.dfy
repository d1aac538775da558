/** OS descriptors and their textual form: `components/os/descriptor.go` and `components/os/const.go`. */
module Descriptors {
  import opened Wrappers
  import opened Text

  datatype Family = LinuxFamily | WindowsFamily | MacOSFamily

  datatype Flavor =
    | Unknown
    | Ubuntu | AmazonLinux | AmazonLinuxECS | Debian | RedHat | Suse | Fedora | CentOS | RockyLinux
    | WindowsServer | WindowsClient
    | MacosOS

  const AMD64 := "x86_64"
  const ARM64 := "arm64"

  function LowerChar(c: char): char
  {
    if 'A' <= c <= 'Z' then c - 'A' + 'a' else c
  }

  function ToLower(s: string): (r: string)
    ensures |r| == |s| && forall i :: 0 <= i < |s| ==> r[i] == LowerChar(s[i])
  {
    seq(|s|, i requires 0 <= i < |s| => LowerChar(s[i]))
  }

  function ArchitectureFromString(s: string): Outcome<string>
  {
    var arch := ToLower(s);
    if arch in {"x86_64", "amd64", "", "x86_64_mac"} then Ok(AMD64)
    else if arch in {"arm64", "aarch64", "arm64_mac"} then Ok(ARM64)
    else Panic
  }

  function FlavorFromString(s: string): Outcome<Flavor>
  {
    FlavorNamed(ToLower(s))
  }

  function FlavorNamed(f: string): Outcome<Flavor>
  {
    if f in {"", "ubuntu"} then Ok(Ubuntu)
    else if f in {"amazon-linux", "amazonlinux"} then Ok(AmazonLinux)
    else if f in {"amazon-linux-ecs", "amazonlinuxecs"} then Ok(AmazonLinuxECS)
    else if f == "debian" then Ok(Debian)
    else if f == "redhat" then Ok(RedHat)
    else if f == "suse" then Ok(Suse)
    else if f == "fedora" then Ok(Fedora)
    else if f == "centos" then Ok(CentOS)
    else if f in {"rocky-linux", "rockylinux"} then Ok(RockyLinux)
    else if f in {"windows", "windows-server"} then Ok(WindowsServer)
    else if f == "windows-client" then Ok(WindowsClient)
    else if f == "macos" then Ok(MacosOS)
    else Panic
  }

  function FlavorType(f: Flavor): Family
  {
    match f
    case WindowsServer => WindowsFamily
    case WindowsClient => WindowsFamily
    case MacosOS => MacOSFamily
    case _ => LinuxFamily
  }

  function FlavorString(f: Flavor): Outcome<string>
  {
    match f
    case Unknown => Panic
    case Ubuntu => Ok("ubuntu")
    case AmazonLinux => Ok("amazon-linux")
    case AmazonLinuxECS => Ok("amazon-linux-ecs")
    case Debian => Ok("debian")
    case RedHat => Ok("redhat")
    case Suse => Ok("suse")
    case Fedora => Ok("fedora")
    case CentOS => Ok("centos")
    case RockyLinux => Ok("rocky-linux")
    case WindowsServer => Ok("windows-server")
    case WindowsClient => Ok("windows-client")
    case MacosOS => Ok("macos")
  }

  datatype Descriptor = Descriptor(family: Family, flavor: Flavor, version: string, architecture: string)

  function NewDescriptorWithArch(f: Flavor, version: string, arch: string): Descriptor
  {
    Descriptor(FlavorType(f), f, version, arch)
  }

  function String(d: Descriptor): Outcome<string>
  {
    match FlavorString(d.flavor)
    case Ok(f) => Ok(Join([f, d.version, d.architecture], ':'))
    case _ => Panic
  }

  function Assembled(f: Outcome<Flavor>, version: string, arch: Outcome<string>): Outcome<Descriptor>
  {
    if f.Ok? && arch.Ok? then Ok(NewDescriptorWithArch(f.value, version, arch.value)) else Panic
  }

  function DescriptorFromString(s: string, fallback: Descriptor): Outcome<Descriptor>
  {
    if s == "" then Ok(fallback) else
      var parts := Split(s, ':');
      if |parts| < 2 || |parts| > 3 then Panic
      else Assembled(FlavorFromString(parts[0]), parts[1],
                     if |parts| == 3 then ArchitectureFromString(parts[2]) else Ok(AMD64))
  }

  lemma LowerIsFixed(s: string)
    requires forall i :: 0 <= i < |s| ==> !('A' <= s[i] <= 'Z')
    ensures ToLower(s) == s
  {
  }

  lemma FlavorIsNamed(f: Flavor)
    requires f != Unknown
    ensures FlavorNamed(FlavorString(f).value) == Ok(f)
  {
  }

  lemma FlavorIsPlain(f: Flavor)
    requires f != Unknown
    ensures var s := FlavorString(f).value;
            s != "" && forall i :: 0 <= i < |s| ==> 'a' <= s[i] <= 'z' || s[i] == '-'
  {
  }

  /** Every flavor but the unknown one is recognised by its own name, which has no colon. */
  lemma FlavorRoundTrip(f: Flavor)
    requires f != Unknown
    ensures FlavorFromString(FlavorString(f).value) == Ok(f)
    ensures ':' !in FlavorString(f).value && FlavorString(f).value != ""
  {
    FlavorIsNamed(f);
    FlavorIsPlain(f);
    LowerIsFixed(FlavorString(f).value);
  }

  lemma ArchitectureRoundTripIff(arch: string)
    ensures ArchitectureFromString(arch) == Ok(arch) <==> arch == AMD64 || arch == ARM64
    ensures arch == AMD64 || arch == ARM64 ==> ':' !in arch
  {
    if arch == AMD64 || arch == ARM64 { LowerIsFixed(arch); }
  }

  /** Parsing three joined parts looks at each of them, or panics if one has a colon. */
  lemma ParseJoined(name: string, version: string, arch: string, fallback: Descriptor)
    ensures DescriptorFromString(Join([name, version, arch], ':'), fallback) ==
      if ':' in name || ':' in version || ':' in arch then Panic
      else Assembled(FlavorFromString(name), version, ArchitectureFromString(arch))
  {
    var parts := [name, version, arch];
    PrintedIsNotEmpty(parts);
    SplitCount(parts, ':');
    assert parts[0] == name && parts[1] == version && parts[2] == arch;
    if ':' !in name && ':' !in version && ':' !in arch {
      SplitJoin(parts, ':');
    } else {
      assert |Split(Join(parts, ':'), ':')| > 3;
    }
  }

  /** Parsing what a descriptor prints gives the descriptor back, with its family, exactly when its version
      has no colon and its architecture is one of the two canonical ones. */
  lemma DescriptorRoundTripIff(f: Flavor, version: string, arch: string, fallback: Descriptor)
    requires f != Unknown
    ensures var d := NewDescriptorWithArch(f, version, arch);
            String(d).Ok? &&
            (DescriptorFromString(String(d).value, fallback) == Ok(d) <==>
              ':' !in version && (arch == AMD64 || arch == ARM64))
  {
    FlavorRoundTrip(f);
    ArchitectureRoundTripIff(arch);
    ParseJoined(FlavorString(f).value, version, arch, fallback);
  }

  /** A text without an architecture: the flavor of its name, the version, and x86_64. */
  lemma ParseTwo(name: string, version: string, fallback: Descriptor)
    requires ':' !in name && ':' !in version
    ensures DescriptorFromString(name + ":" + version, fallback) ==
      match FlavorFromString(name)
      case Ok(f) => Ok(Descriptor(FlavorType(f), f, version, "x86_64"))
      case _ => Panic
  {
    var parts := [name, version];
    assert parts[..1] == [name];
    assert Join(parts, ':') == name + ":" + version;
    SplitJoin(parts, ':');
  }

  /** No text gives the fallback, and a text without a colon is refused. */
  lemma ParseOne(name: string, fallback: Descriptor)
    requires ':' !in name
    ensures DescriptorFromString(name, fallback) == if name == "" then Ok(fallback) else Panic
  {
    SplitOne(name, ':');
  }

  /** The family of a flavor shows in its name, and no text is recognised as the unknown flavor. */
  lemma FamilyByName(f: Flavor, s: string)
    requires FlavorFromString(s) == Ok(f)
    ensures f != Unknown
    ensures FlavorType(f) == WindowsFamily <==> "windows" <= FlavorString(f).value
    ensures FlavorType(f) == MacOSFamily <==> "mac" <= FlavorString(f).value
  {
    FamilyByPrintedName(f);
  }

  lemma FamilyByPrintedName(f: Flavor)
    requires f != Unknown
    ensures FlavorType(f) == WindowsFamily <==> "windows" <= FlavorString(f).value
    ensures FlavorType(f) == MacOSFamily <==> "mac" <= FlavorString(f).value
  {
    var name := FlavorString(f).value;
    match f
    case WindowsServer | WindowsClient => assert name[..7] == "windows" && name[0] == 'w';
    case MacosOS => assert name[..3] == "mac" && name[0] == 'm';
    case Ubuntu => assert name[0] == 'u';
    case AmazonLinux | AmazonLinuxECS => assert name[0] == 'a';
    case Debian => assert name[0] == 'd';
    case RedHat | RockyLinux => assert name[0] == 'r';
    case Suse => assert name[0] == 's';
    case Fedora => assert name[0] == 'f';
    case CentOS => assert name[0] == 'c';
  }

  /** The other names that are recognised, in any case of letters. */
  lemma Aliases(s: string)
    ensures ToLower(s) == "" ==> FlavorFromString(s) == Ok(Ubuntu) && ArchitectureFromString(s) == Ok("x86_64")
    ensures ToLower(s) == "amazonlinux" ==> FlavorFromString(s) == Ok(AmazonLinux)
    ensures ToLower(s) == "amazonlinuxecs" ==> FlavorFromString(s) == Ok(AmazonLinuxECS)
    ensures ToLower(s) == "rockylinux" ==> FlavorFromString(s) == Ok(RockyLinux)
    ensures ToLower(s) == "windows" ==> FlavorFromString(s) == Ok(WindowsServer)
    ensures ToLower(s) in {"amd64", "x86_64_mac"} ==> ArchitectureFromString(s) == Ok("x86_64")
    ensures ToLower(s) in {"aarch64", "arm64_mac"} ==> ArchitectureFromString(s) == Ok("arm64")
  {
  }

  /** Capital letters do not matter, in flavors and in architectures. */
  lemma CaseDoesNotMatter(s: string, t: string)
    requires |s| == |t|
    requires forall i :: 0 <= i < |s| ==> t[i] == s[i] || ('A' <= s[i] <= 'Z' && t[i] == s[i] - 'A' + 'a')
    ensures FlavorFromString(s) == FlavorFromString(t) && ArchitectureFromString(s) == ArchitectureFromString(t)
  {
    assert ToLower(s) == ToLower(t);
  }

  lemma PrintedIsNotEmpty(parts: seq<string>)
    requires |parts| == 3
    ensures Join(parts, ':') != ""
  {
    SplitCount(parts, ':');
    assert Split("", ':') == [""];
  }

  /** The Windows client descriptors carry such versions: printing one gives a text that is refused. */
  lemma WindowsClientIsRefused(fallback: Descriptor)
    ensures var d := NewDescriptorWithArch(WindowsClient, "windows-11:win11-24h2-pro", AMD64);
            String(d).Ok? && DescriptorFromString(String(d).value, fallback) == Panic
  {
    var version := "windows-11:win11-24h2-pro";
    assert version[10] == ':';
    ParseJoined("windows-client", version, AMD64, fallback);
  }
}
