/** The names a channel's files are published under, and why no two of them meet. */
module ChannelNames {
  import opened Wrappers

  datatype Role = Root | Timestamp | Snapshot | Targets

  /**
   A published file. The manifest is the one target: it is named by its digest in the channel and by
   its path on a generation's own release. A staged asset is named by what it replaces.
   */
  datatype Name<D> =
    | Plain(role: Role)
    | Manifest
    | Versioned(role: Role, version: nat)
    | Target(digest: D)
    | Staging(of: Name<D>)

  /** Timestamp is only ever plain, root is both, the others only versioned. */
  function PublishedNames<D>(role: Role, version: nat): seq<Name<D>> {
    match role
    case Timestamp => [Plain(Timestamp)]
    case Root => [Versioned(Root, version), Plain(Root)]
    case Targets => [Versioned(Targets, version)]
    case Snapshot => [Versioned(Snapshot, version)]
  }

  /** What a client asks for is published: timestamp and root plain, all but timestamp by version, and nothing else. */
  lemma NamesOfARole<D>(role: Role, version: nat, name: Name<D>)
    ensures name in PublishedNames<D>(role, version) <==>
              || (name == Plain(role) && (role == Timestamp || role == Root))
              || (name == Versioned(role, version) && role != Timestamp)
  {
  }

  // ----- as strings -----

  function FileName(role: Role): string {
    match role
    case Root => "root.json"
    case Timestamp => "timestamp.json"
    case Snapshot => "snapshot.json"
    case Targets => "targets.json"
  }

  function Digit(d: nat): char
    requires d < 10
  {
    ['0', '1', '2', '3', '4', '5', '6', '7', '8', '9'][d]
  }

  function Decimal(n: nat): (s: string)
    ensures s != "" && '.' !in s
  {
    if n < 10 then [Digit(n)] else Decimal(n / 10) + [Digit(n % 10)]
  }

  /** How a name reads, given the hexadecimal form of a digest. */
  function Render<D>(name: Name<D>, hex: D -> string): string {
    match name
    case Plain(role) => FileName(role)
    case Manifest => "manifest.json"
    case Versioned(role, version) => Decimal(version) + "." + FileName(role)
    case Target(digest) => hex(digest) + ".manifest.json"
    case Staging(of) => Render(of, hex) + ".incoming"
  }

  /** A hexadecimal form: different digests read differently, and none has a dot. */
  ghost predicate IsHex<D(!new)>(hex: D -> string) {
    && (forall d :: '.' !in hex(d))
    && (forall d, e :: hex(d) == hex(e) ==> d == e)
  }

  lemma {:induction false} DecimalInjective(m: nat, n: nat)
    requires Decimal(m) == Decimal(n)
    ensures m == n
    decreases m
  {
    var s, t := Decimal(m), Decimal(n);
    assert s[|s| - 1] == Digit(m % 10) && t[|t| - 1] == Digit(n % 10);
    assert m >= 10 ==> |s| >= 2;
    assert n >= 10 ==> |t| >= 2;
    if m >= 10 && n >= 10 {
      assert s[..|s| - 1] == Decimal(m / 10) && t[..|t| - 1] == Decimal(n / 10);
      DecimalInjective(m / 10, n / 10);
    }
  }

  function FirstDot(s: string): nat {
    if s == "" || s[0] == '.' then 0 else 1 + FirstDot(s[1..])
  }

  lemma {:induction false} FirstDotAfter(a: string, x: string)
    requires '.' !in a
    ensures FirstDot(a + "." + x) == |a|
    decreases |a|
  {
    if a != "" {
      assert (a + "." + x)[1..] == a[1..] + "." + x;
      FirstDotAfter(a[1..], x);
    }
  }

  /** Text up to a first dot is determined by the whole. */
  lemma SplitAtDot(a: string, x: string, b: string, y: string)
    requires '.' !in a && '.' !in b && a + "." + x == b + "." + y
    ensures a == b && x == y
  {
    var s, t := a + "." + x, b + "." + y;
    FirstDotAfter(a, x);
    FirstDotAfter(b, y);
    assert a == s[..|a|] && b == t[..|b|];
    assert x == s[|a| + 1..] && y == t[|b| + 1..];
  }

  /** A published name as its text before the first dot and the text after it. */
  function Stem<D>(name: Name<D>, hex: D -> string): string
    requires !name.Staging?
  {
    match name
    case Plain(Root) => "root"
    case Plain(Timestamp) => "timestamp"
    case Plain(Snapshot) => "snapshot"
    case Plain(Targets) => "targets"
    case Manifest => "manifest"
    case Versioned(_, version) => Decimal(version)
    case Target(digest) => hex(digest)
  }

  function Tail<D>(name: Name<D>): string
    requires !name.Staging?
  {
    match name
    case Plain(_) => "json"
    case Manifest => "json"
    case Versioned(role, _) => FileName(role)
    case Target(_) => "manifest.json"
  }

  lemma RenderSplits<D(!new)>(name: Name<D>, hex: D -> string)
    requires !name.Staging? && IsHex(hex)
    ensures '.' !in Stem(name, hex) && Render(name, hex) == Stem(name, hex) + "." + Tail(name)
  {
    assert FileName(Root) == "root" + "." + "json";
    assert FileName(Timestamp) == "timestamp" + "." + "json";
    assert FileName(Snapshot) == "snapshot" + "." + "json";
    assert FileName(Targets) == "targets" + "." + "json";
    assert "manifest.json" == "manifest" + "." + "json";
    if name.Target? { assert ".manifest.json" == "." + "manifest.json"; }
  }

  lemma LastChar<D(!new)>(name: Name<D>, hex: D -> string)
    ensures var s := Render(name, hex); s != "" && s[|s| - 1] == if name.Staging? then 'g' else 'n'
  {
  }

  /** Two names that read the same are the same: one flat namespace holds every file of a channel. */
  lemma {:induction false} NamesNeverMeet<D(!new)>(a: Name<D>, b: Name<D>, hex: D -> string)
    requires IsHex(hex) && Render(a, hex) == Render(b, hex)
    ensures a == b
    decreases a
  {
    LastChar(a, hex);
    LastChar(b, hex);
    if a.Staging? {
      var s := Render(a, hex);
      assert Render(a.of, hex) == s[..|s| - |".incoming"|] == Render(b.of, hex);
      NamesNeverMeet(a.of, b.of, hex);
    } else {
      RenderSplits(a, hex);
      RenderSplits(b, hex);
      SplitAtDot(Stem(a, hex), Tail(a), Stem(b, hex), Tail(b));
      SameStemAndTail(a, b, hex);
    }
  }

  lemma SameStemAndTail<D(!new)>(a: Name<D>, b: Name<D>, hex: D -> string)
    requires !a.Staging? && !b.Staging? && IsHex(hex)
    requires Stem(a, hex) == Stem(b, hex) && Tail(a) == Tail(b)
    ensures a == b
  {
    assert Tail(a)[0] == Tail(b)[0] && |Tail(a)| == |Tail(b)|;
    if a.Versioned? && b.Versioned? {
      assert FileName(a.role)[1] == FileName(b.role)[1];
      DecimalInjective(a.version, b.version);
    } else if !a.Target? && !a.Versioned? && !b.Target? && !b.Versioned? {
      assert Stem(a, hex)[0] == Stem(b, hex)[0] && |Stem(a, hex)| == |Stem(b, hex)|;
    }
  }
}
