/** The keys of the two manifest caches: file, render mode and hash of the values, joined by dashes. */
module CacheKeys {
  import opened Hashing
  import opened Model
  import opened Text

  /** What is rendered: `path` is the cleaned directory below the cache's base, `values` the marshalled values. */
  datatype Spec = Spec(path: string, name: string, mode: RenderMode, values: seq<Byte>)

  /** A file of the disk cache, by its directory and its name in there. */
  datatype Place = Place(root: string, name: string)

  function ModeName(mode: RenderMode): string {
    match mode
    case Helm => "helm"
    case Kustomize => "kustomize"
    case Raw => "raw"
  }

  function Decimal(n: nat): (digits: string)
    ensures |digits| > 0
  {
    var digit := ['0' + (n % 10) as char];
    if n < 10 then digit else Decimal(n / 10) + digit
  }

  function Dashed(file: string, mode: RenderMode, hash: nat): string {
    file + "-" + ModeName(mode) + "-" + Decimal(hash)
  }

  function File(s: Spec): string {
    s.path + "/" + s.name
  }

  function MemoryKey(s: Spec): string {
    Dashed(File(s), s.mode, Hash(s.values))
  }

  function PlaceOf(base: string, s: Spec): Place {
    Place(base + "/" + s.path, Dashed(s.name, s.mode, Hash(s.values)) + ".yaml")
  }

  // ---------------------------------------------------------------- injectivity

  /** What follows the last separator is determined by the text. */
  lemma {:induction false} LastPart(a: string, b: string, x: string, y: string, sep: char)
    requires a + [sep] + x == b + [sep] + y
    requires Free(x, sep) && Free(y, sep)
    ensures a == b && x == y
    decreases |x|
  {
    var s := a + [sep] + x;
    assert s == b + [sep] + y;
    if x == "" || y == "" {
      var last := s[|s| - 1];
      assert if x == "" then last == sep else last in x;
      assert if y == "" then last == sep else last in y;
      assert x == y == "";
      assert a == s[..|s| - 1] == b;
    } else {
      var n := |s| - 1;
      assert s[..n] == a + [sep] + x[..|x| - 1] == b + [sep] + y[..|y| - 1];
      LastPart(a, b, x[..|x| - 1], y[..|y| - 1], sep);
      assert x == x[..|x| - 1] + [s[n]] && y == y[..|y| - 1] + [s[n]];
    }
  }

  lemma {:induction false} DecimalIsDigits(n: nat)
    ensures forall c | c in Decimal(n) :: '0' <= c <= '9'
  {
    if n >= 10 {
      DecimalIsDigits(n / 10);
    }
  }

  /** The number that digits stand for. */
  function NumberOf(digits: string): int {
    if digits == "" then 0 else 10 * NumberOf(digits[..|digits| - 1]) + (digits[|digits| - 1] as int - '0' as int)
  }

  lemma {:induction false} NumberOfDecimal(n: nat)
    ensures NumberOf(Decimal(n)) == n
  {
    var s := Decimal(n);
    assert s[|s| - 1] as int == '0' as int + n % 10;
    if n >= 10 {
      NumberOfDecimal(n / 10);
      assert s[..|s| - 1] == Decimal(n / 10);
    }
  }

  lemma DecimalInjective(m: nat, n: nat)
    requires Decimal(m) == Decimal(n)
    ensures m == n
  {
    NumberOfDecimal(m);
    NumberOfDecimal(n);
  }

  lemma NoDashes(mode: RenderMode, hash: nat)
    ensures Free(ModeName(mode), '-') && Free(Decimal(hash), '-')
  {
    DecimalIsDigits(hash);
  }

  /** A key names one file, one mode and one hash: the dashes a file name may hold cannot be mistaken for the key's own. */
  lemma DashedInjective(f: string, m: RenderMode, h: nat, f': string, m': RenderMode, h': nat)
    ensures Dashed(f, m, h) == Dashed(f', m', h') <==> f == f' && m == m' && h == h'
  {
    if Dashed(f, m, h) == Dashed(f', m', h') {
      NoDashes(m, h);
      NoDashes(m', h');
      LastPart(f + "-" + ModeName(m), f' + "-" + ModeName(m'), Decimal(h), Decimal(h'), '-');
      LastPart(f, f', ModeName(m), ModeName(m'), '-');
      DecimalInjective(h, h');
      assert ModeName(m)[0] == ModeName(m')[0];
    }
  }

  /** Two specs share their memory key exactly when they agree on file and mode and their values have the same hash. */
  lemma SameKey(a: Spec, b: Spec)
    ensures MemoryKey(a) == MemoryKey(b) <==> File(a) == File(b) && a.mode == b.mode && Hash(a.values) == Hash(b.values)
  {
    DashedInjective(File(a), a.mode, Hash(a.values), File(b), b.mode, Hash(b.values));
  }

  /** A slash in the name mixes up directories and names: these two specs are different and share their memory key. */
  lemma SlashesMixKeys(mode: RenderMode, values: seq<Byte>)
    ensures var a, b := Spec("x", "y/z", mode, values), Spec("x/y", "z", mode, values);
            a != b && MemoryKey(a) == MemoryKey(b)
  {
    var a, b := Spec("x", "y/z", mode, values), Spec("x/y", "z", mode, values);
    assert File(a) == "x/y/z" == File(b);
    assert |a.path| != |b.path|;
  }

  /** Specs that share a file on disk share a memory key, so the disk never mixes what the memory keeps apart. With flat names
      the converse holds too. */
  lemma SamePlace(base: string, a: Spec, b: Spec)
    ensures PlaceOf(base, a) == PlaceOf(base, b) ==> MemoryKey(a) == MemoryKey(b)
    ensures Free(a.name, '/') && Free(b.name, '/') && MemoryKey(a) == MemoryKey(b) ==> PlaceOf(base, a) == PlaceOf(base, b)
  {
    SameKey(a, b);
    if PlaceOf(base, a) == PlaceOf(base, b) {
      assert a.path == (base + "/" + a.path)[|base| + 1..] == b.path;
      var x, y := Dashed(a.name, a.mode, Hash(a.values)), Dashed(b.name, b.mode, Hash(b.values));
      assert x == (x + ".yaml")[..|x|] && y == (y + ".yaml")[..|y|];
      DashedInjective(a.name, a.mode, Hash(a.values), b.name, b.mode, Hash(b.values));
    }
    if Free(a.name, '/') && Free(b.name, '/') && MemoryKey(a) == MemoryKey(b) {
      LastPart(a.path, b.path, a.name, b.name, '/');
    }
  }
}
