/** Names of the temporary siblings of a plugin directory. */
module PluginNames {
  import opened Options

  const UINT32_LIMIT := 0x1_0000_0000

  function Digit(d: nat): char
    requires d < 10
  {
    '0' + d as char
  }

  /** Unpadded decimal, as `strconv.FormatUint` prints it. */
  function Decimal(n: nat): string {
    if n < 10 then [Digit(n)] else Decimal(n / 10) + [Digit(n % 10)]
  }

  predicate AllDigits(s: string) {
    forall i :: 0 <= i < |s| ==> '0' <= s[i] <= '9'
  }

  function Value(s: string): nat
    requires AllDigits(s)
  {
    if s == [] then 0 else Value(s[..|s| - 1]) * 10 + (s[|s| - 1] - '0') as nat
  }

  /** `strconv.ParseUint(s, 10, 32)` */
  function ParseUint32(s: string): Option<nat> {
    if s != [] && AllDigits(s) && Value(s) < UINT32_LIMIT then Some(Value(s)) else None
  }

  /** The text between dots and number of a temporary name. */
  function Prefix(base: string, kind: string): string {
    "." + base + "." + kind + "-"
  }

  /** What `os.MkdirTemp` makes of the pattern `.base.kind-*` for one random number. */
  function TempName(base: string, kind: string, n: nat): string {
    Prefix(base, kind) + Decimal(n)
  }

  /** `temporaryName`: the suffix must be a number in exactly the form it is printed in. */
  predicate IsTemporary(base: string, kind: string, name: string) {
    Prefix(base, kind) <= name &&
    var suffix := name[|Prefix(base, kind)|..];
    match ParseUint32(suffix)
      case None => false
      case Some(n) => Decimal(n) == suffix
  }

  lemma {:induction false} DecimalParses(n: nat)
    ensures Decimal(n) != [] && AllDigits(Decimal(n)) && Value(Decimal(n)) == n
  {
    if n >= 10 {
      DecimalParses(n / 10);
      assert Decimal(n)[..|Decimal(n)| - 1] == Decimal(n / 10);
    }
  }

  lemma DrawnIsTemporary(base: string, kind: string, n: nat)
    requires n < UINT32_LIMIT
    ensures IsTemporary(base, kind, TempName(base, kind, n))
  {
    DecimalParses(n);
    assert TempName(base, kind, n)[|Prefix(base, kind)|..] == Decimal(n);
  }

  /** The names the check accepts are exactly those `MkdirTemp` can have made. */
  lemma TemporaryExactly(base: string, kind: string, name: string)
    ensures IsTemporary(base, kind, name) <==> exists n: nat :: n < UINT32_LIMIT && name == TempName(base, kind, n)
  {
    var p := Prefix(base, kind);
    if IsTemporary(base, kind, name) {
      var n := ParseUint32(name[|p|..]).value;
      assert name == p + name[|p|..];
      assert name == TempName(base, kind, n);
    }
    forall n: nat | n < UINT32_LIMIT && name == TempName(base, kind, n) ensures IsTemporary(base, kind, name) {
      DrawnIsTemporary(base, kind, n);
    }
  }

  /** A name is never a backup and a stage at once, and never the directory itself. */
  lemma TemporaryKindsDiffer(base: string, name: string)
    ensures !(IsTemporary(base, "backup", name) && IsTemporary(base, "stage", name))
    ensures !IsTemporary(base, "backup", base) && !IsTemporary(base, "stage", base)
  {
    var i := |base| + 2;
    assert Prefix(base, "backup")[i] == 'b' && Prefix(base, "stage")[i] == 's';
  }
}
