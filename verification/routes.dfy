/** The route-name normalisation at the top of `Mount` (crud.go). */
module Routes {

  /** `strings.TrimLeft(s, "/")`: drop every leading slash. The input is a
      run of slashes followed by the result, which does not start with one. */
  function TrimLeftSlashes(s: string): (r: string)
    ensures |r| <= |s| && s == Slashes(|s| - |r|) + r
    ensures r == [] || r[0] != '/'
    decreases |s|
  {
    if s != [] && s[0] == '/' then
      var r := TrimLeftSlashes(s[1..]);
      var n := |s| - 1 - |r|;
      assert s == "/" + s[1..];
      assert Slashes(n + 1) == "/" + Slashes(n);
      assert "/" + (Slashes(n) + r) == ("/" + Slashes(n)) + r;
      r
    else
      assert Slashes(0) + s == s;
      s
  }

  /** The mount name: exactly one leading slash before the name's own text. */
  function MountName(name: string): (r: string)
    ensures |r| >= 1 && r[0] == '/'
    ensures |r| == 1 || r[1] != '/'
    ensures |r| - 1 <= |name| && name == Slashes(|name| - (|r| - 1)) + r[1..]
  {
    "/" + TrimLeftSlashes(name)
  }

  /** Normalising twice gives the same name as normalising once. */
  lemma MountNameIdempotent(name: string)
    ensures MountName(MountName(name)) == MountName(name)
  {
  }

  /** Names that differ only in their leading slashes mount at the same path. */
  lemma LeadingSlashesIgnored(name: string, k: nat)
    ensures MountName(Slashes(k) + name) == MountName(name)
  {
    TrimSlashesPrefix(name, k);
  }

  /** Extra leading slashes do not change the trimmed name. */
  lemma {:induction false} TrimSlashesPrefix(name: string, k: nat)
    ensures TrimLeftSlashes(Slashes(k) + name) == TrimLeftSlashes(name)
    decreases k
  {
    if k > 0 {
      var t := Slashes(k - 1) + name;
      SlashesUnfold(k, name);
      TrimOneSlash(t);
      TrimSlashesPrefix(name, k - 1);
    } else {
      assert Slashes(k) + name == name;
    }
  }

  lemma SlashesUnfold(k: nat, name: string)
    requires k > 0
    ensures Slashes(k) + name == "/" + (Slashes(k - 1) + name)
  {
    assert Slashes(k) == "/" + Slashes(k - 1);
  }

  /** One leading slash is trimmed like the rest. */
  lemma TrimOneSlash(t: string)
    ensures TrimLeftSlashes("/" + t) == TrimLeftSlashes(t)
  {
    assert ("/" + t)[1..] == t;
  }

  function Slashes(k: nat): (r: string)
    ensures |r| == k
  {
    if k == 0 then [] else "/" + Slashes(k - 1)
  }

  lemma MountNameExamples()
    ensures MountName("people") == "/people"
    ensures MountName("//people") == "/people"
    ensures MountName("") == "/"
  {
    assert "people"[0] != '/';
    assert TrimLeftSlashes("people") == "people";
    assert "//people"[1..] == "/people" && "/people"[1..] == "people";
    assert TrimLeftSlashes("//people") == "people";
  }
}
