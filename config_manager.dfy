/**
 * The configuration store: a key/value map with four built-in defaults, a
 * text file of `key=value` lines with backslash escapes, a loader that lets
 * later lines win and restores emptied built-in keys, and the accessors.
 * The file system is a `Disk` object holding each file as its lines.
 */
module Config {
  import opened TextOps

  const KeyProxyUrl := "proxy_url"
  const KeyWslLinuxDistro := "wsl_linux_distro"
  const KeyWslInstallerUrl := "wsl_installer_url"
  const KeyWslKernelUrl := "wsl_kernel_url"
  const KeyPrakasaGitRepoUrl := "prakasa_git_repo_url"

  /** The file name the store uses next to the executable. */
  const DefaultConfigPath := "parallax_config.txt"

  const DefaultDistro := "Ubuntu-24.04"
  const DefaultInstallerUrl := "https://github.com/microsoft/WSL/releases/download/2.4.13/wsl.2.4.13.0.x64.msi"
  const DefaultKernelUrl := "https://wslstorestorage.blob.core.windows.net/wslblob/wsl_update_x64.msi"
  const DefaultRepoUrl := "https://github.com/hetu-project/prakasa.git"

  /** The keys with built-in defaults, in the ascending order `std::map` visits them. */
  const BuiltinKeys: seq<string> := [KeyPrakasaGitRepoUrl, KeyWslInstallerUrl, KeyWslKernelUrl, KeyWslLinuxDistro]

  /** What `InitDefaultConfig` writes; `proxy_url` has no default. */
  const Defaults: map<string, string> := map[
    KeyWslLinuxDistro := DefaultDistro,
    KeyWslInstallerUrl := DefaultInstallerUrl,
    KeyWslKernelUrl := DefaultKernelUrl,
    KeyPrakasaGitRepoUrl := DefaultRepoUrl]

  /** The keys `IsValidConfigKey` accepts. */
  const ValidKeys: set<string> :=
    {KeyProxyUrl, KeyWslLinuxDistro, KeyWslInstallerUrl, KeyWslKernelUrl, KeyPrakasaGitRepoUrl}

  lemma BuiltinKeysDistinct()
    ensures forall i, j :: 0 <= i < j < |BuiltinKeys| ==> BuiltinKeys[i] != BuiltinKeys[j]
  {
    assert |KeyPrakasaGitRepoUrl| == 20 && |KeyWslInstallerUrl| == 17;
    assert |KeyWslKernelUrl| == 14 && |KeyWslLinuxDistro| == 16;
  }

  /** The defaults cover exactly the built-in keys, every one with a non-empty value. */
  lemma DefaultsShape()
    ensures forall k :: k in Defaults <==> k in BuiltinKeys
    ensures forall k :: k in Defaults ==> Defaults[k] != ""
    ensures KeyProxyUrl !in Defaults
  {
    assert |KeyProxyUrl| == 9;
    assert Defaults[KeyWslLinuxDistro] == DefaultDistro && DefaultDistro != "";
    assert Defaults[KeyWslInstallerUrl] == DefaultInstallerUrl && DefaultInstallerUrl != "";
    assert Defaults[KeyWslKernelUrl] == DefaultKernelUrl && DefaultKernelUrl != "";
    assert Defaults[KeyPrakasaGitRepoUrl] == DefaultRepoUrl && DefaultRepoUrl != "";
  }

  // ---------------------------------------------------------------------------
  // Value escaping

  /** One character of `EscapeValue`: the seven escaped ones get a backslash. */
  function EscapeChar(c: char): (e: string)
    ensures |e| == 1 <==> e == [c]
    ensures |e| == 1 || (|e| == 2 && e[0] == '\\')
  {
    match c
    case '\n' => "\\n"
    case '\r' => "\\r"
    case '\t' => "\\t"
    case '\\' => "\\\\"
    case '"' => "\\\""
    case '\'' => "\\'"
    case '=' => "\\="
    case _ => [c]
  }

  function Escape(s: string): (e: string)
    ensures |e| >= |s|
  {
    if s == [] then [] else EscapeChar(s[0]) + Escape(s[1..])
  }

  /**
   * The character written for `\` followed by `next`: `n`, `r` and `t` become
   * control characters; `\`, `"`, `'`, `=` and every other character stand
   * for themselves.
   */
  function UnescapeChar(next: char): char
  {
    match next
    case 'n' => '\n'
    case 'r' => '\r'
    case 't' => '\t'
    case _ => next
  }

  /** The unescaping loop of `ParseKeyValue`; a final lone backslash is kept. */
  function Unescape(s: string): string
    decreases |s|
  {
    if s == [] then []
    else if s[0] == '\\' && 1 < |s| then [UnescapeChar(s[1])] + Unescape(s[2..])
    else [s[0]] + Unescape(s[1..])
  }

  /** Text without a backslash is kept as it is, and so is one lone backslash at its end. */
  lemma {:induction false} UnescapeLiteral(s: string)
    requires forall j :: 0 <= j < |s| ==> s[j] != '\\'
    ensures Unescape(s) == s && Unescape(s + "\\") == s + "\\"
    decreases |s|
  {
    if s == [] {
      assert [] + "\\" == "\\" && "\\"[1..] == [];
    } else {
      UnescapeLiteral(s[1..]);
      assert (s + "\\")[0] == s[0] && (s + "\\")[1..] == s[1..] + "\\";
      assert [s[0]] + (s[1..] + "\\") == s + "\\";
    }
  }

  /** Unescaping undoes escaping, for every value. */
  lemma {:induction false} UnescapeEscape(v: string)
    ensures Unescape(Escape(v)) == v
  {
    if v != [] {
      var e := EscapeChar(v[0]);
      var rest := Escape(v[1..]);
      UnescapeEscape(v[1..]);
      assert Escape(v) == e + rest;
      if |e| == 2 {
        assert (e + rest)[0] == '\\' && (e + rest)[1] == e[1];
        assert (e + rest)[2..] == rest;
        assert UnescapeChar(e[1]) == v[0];
      } else {
        assert (e + rest)[0] == v[0] && (e + rest)[1..] == rest;
      }
      assert v == [v[0]] + v[1..];
    }
  }

  lemma {:induction false} EscapeAppend(a: string, c: char)
    ensures Escape(a + [c]) == Escape(a) + EscapeChar(c)
    decreases |a|
  {
    if a == [] {
      assert Escape([c]) == EscapeChar(c) + Escape([]);
    } else {
      assert (a + [c])[0] == a[0] && (a + [c])[1..] == a[1..] + [c];
      EscapeAppend(a[1..], c);
      AppendAssoc(EscapeChar(a[0]), Escape(a[1..]), EscapeChar(c));
    }
  }

  /** Escaping puts a blank at either end only where the value has a space there. */
  lemma EscapeEnds(v: string)
    requires v != []
    ensures Escape(v) != []
    ensures v[0] != ' ' ==> !IsBlank(Escape(v)[0])
    ensures v[|v| - 1] != ' ' ==> !IsBlank(Escape(v)[|Escape(v)| - 1])
  {
    assert Escape(v) == EscapeChar(v[0]) + Escape(v[1..]);
    assert v == v[..|v| - 1] + [v[|v| - 1]];
    EscapeAppend(v[..|v| - 1], v[|v| - 1]);
  }

  /** `EscapeValue`: append each character's escape. */
  method EscapeValue(value: string) returns (escaped: string)
    ensures escaped == Escape(value)
  {
    escaped := "";
    var i := 0;
    while i < |value|
      invariant 0 <= i <= |value|
      invariant escaped + Escape(value[i..]) == Escape(value)
    {
      assert Escape(value[i..]) == EscapeChar(value[i]) + Escape(value[i + 1..]);
      AppendAssoc(escaped, EscapeChar(value[i]), Escape(value[i + 1..]));
      escaped := escaped + EscapeChar(value[i]);
      i := i + 1;
    }
    assert value[i..] == [];
  }

  // ---------------------------------------------------------------------------
  // Line parsing

  /** The characters `find_first_not_of(" \t")` skips. */
  predicate IsBlank(c: char)
  {
    c == ' ' || c == '\t'
  }

  function LeadingBlanks(s: string): (n: nat)
    ensures n <= |s|
    ensures forall j :: 0 <= j < n ==> IsBlank(s[j])
    ensures n < |s| ==> !IsBlank(s[n])
  {
    if s != [] && IsBlank(s[0]) then 1 + LeadingBlanks(s[1..]) else 0
  }

  function TrailingBlanks(s: string): (n: nat)
    ensures n <= |s|
    ensures forall j :: |s| - n <= j < |s| ==> IsBlank(s[j])
    ensures n < |s| ==> !IsBlank(s[|s| - n - 1])
  {
    if s != [] && IsBlank(s[|s| - 1]) then 1 + TrailingBlanks(s[..|s| - 1]) else 0
  }

  /**
   * The two `erase` calls: drop leading, then trailing spaces and tabs (all of
   * a blank text).
   */
  function Trim(s: string): (t: string)
    ensures t == [] || (!IsBlank(t[0]) && !IsBlank(t[|t| - 1]))
    ensures LeadingBlanks(s) + |t| <= |s| && t == s[LeadingBlanks(s)..LeadingBlanks(s) + |t|]
    ensures forall j :: LeadingBlanks(s) + |t| <= j < |s| ==> IsBlank(s[j])
  {
    var u := s[LeadingBlanks(s)..];
    var n := TrailingBlanks(u);
    assert forall j :: LeadingBlanks(s) + |u| - n <= j < |s| ==> s[j] == u[j - LeadingBlanks(s)];
    u[..|u| - n]
  }

  lemma TrimClean(s: string)
    requires s == [] || (!IsBlank(s[0]) && !IsBlank(s[|s| - 1]))
    ensures Trim(s) == s
  {
    if s != [] {
      assert LeadingBlanks(s) == 0;
      assert s[0..] == s;
      assert TrailingBlanks(s) == 0;
    }
  }

  /** `find(c)`: the first index holding `c`, or `|s|` for `npos`. */
  function IndexOf(s: string, c: char): (i: nat)
    ensures i <= |s|
    ensures forall j :: 0 <= j < i ==> s[j] != c
    ensures i < |s| ==> s[i] == c
  {
    if s == [] then 0
    else if s[0] == c then 0
    else 1 + IndexOf(s[1..], c)
  }

  /** `ParseKeyValue`: no `=` fails; otherwise the trimmed key and the unescaped trimmed value. */
  function ParseLine(line: string): (r: Option<(string, string)>)
  {
    var pos := IndexOf(line, '=');
    if pos == |line| then None
    else Some((Trim(line[..pos]), Unescape(Trim(line[pos + 1..]))))
  }

  /** The parse fails exactly without an `=`, and a parsed key never contains one. */
  lemma ParseLineShape(line: string)
    ensures ParseLine(line).None? <==> forall j :: 0 <= j < |line| ==> line[j] != '='
    ensures ParseLine(line).Some? ==>
      var k := ParseLine(line).value.0;
      forall j :: 0 <= j < |k| ==> k[j] != '='
  {
    var pos := IndexOf(line, '=');
    if pos < |line| {
      var k := Trim(line[..pos]);
      var a := LeadingBlanks(line[..pos]);
      assert forall j :: 0 <= j < |k| ==> k[j] == line[a + j];
    }
  }

  lemma ParseLineFound(line: string, pos: nat, left: string, right: string)
    requires pos == IndexOf(line, '=') < |line| && left == line[..pos] && right == line[pos + 1..]
    ensures ParseLine(line) == Some((Trim(left), Unescape(Trim(right))))
  {
  }

  /** One step of unescaping from index `i`. */
  lemma UnescapeFrom(s: string, i: nat)
    requires i < |s|
    ensures s[i] == '\\' && i + 1 < |s| ==> Unescape(s[i..]) == [UnescapeChar(s[i + 1])] + Unescape(s[i + 2..])
    ensures !(s[i] == '\\' && i + 1 < |s|) ==> Unescape(s[i..]) == [s[i]] + Unescape(s[i + 1..])
  {
    assert s[i..][0] == s[i];
    if i + 1 < |s| {
      assert s[i..][1] == s[i + 1] && s[i..][2..] == s[i + 2..];
    }
    assert s[i..][1..] == s[i + 1..];
  }

  /** `ParseKeyValue` with its unescaping loop. */
  method ParseKeyValue(line: string) returns (ok: bool, key: string, value: string)
    ensures ok <==> ParseLine(line).Some?
    ensures ok ==> ParseLine(line) == Some((key, value))
  {
    var pos := IndexOf(line, '=');
    if pos == |line| {
      return false, "", "";
    }
    var left, right := line[..pos], line[pos + 1..];
    ParseLineFound(line, pos, left, right);
    key := Trim(left);
    var raw := Trim(right);
    value := UnescapeValue(raw);
    ok := true;
  }

  /** The unescaping loop of `ParseKeyValue`. */
  method UnescapeValue(raw: string) returns (unescaped: string)
    ensures unescaped == Unescape(raw)
  {
    unescaped := "";
    var i := 0;
    while i < |raw|
      invariant 0 <= i <= |raw|
      invariant unescaped + Unescape(raw[i..]) == Unescape(raw)
    {
      UnescapeFrom(raw, i);
      if raw[i] == '\\' && i + 1 < |raw| {
        AppendAssoc(unescaped, [UnescapeChar(raw[i + 1])], Unescape(raw[i + 2..]));
        unescaped := unescaped + [UnescapeChar(raw[i + 1])];
        i := i + 2;
      } else {
        AppendAssoc(unescaped, [raw[i]], Unescape(raw[i + 1..]));
        unescaped := unescaped + [raw[i]];
        i := i + 1;
      }
    }
    assert raw[i..] == [] && unescaped + [] == unescaped;
  }

  // ---------------------------------------------------------------------------
  // Saved lines

  /** The header `SaveConfig` writes: two comments and an empty line. */
  const Header: seq<string> :=
    ["# Parallax Configuration File", "# Generated automatically, do not edit manually", ""]

  /** `key=EscapeValue(value)`. */
  function EntryLine(key: string, value: string): string
  {
    key + "=" + Escape(value)
  }

  /** The entry lines of `m` for the keys in `order`. */
  function Render(order: seq<string>, m: map<string, string>): (lines: seq<string>)
    requires forall k :: k in order ==> k in m
    ensures |lines| == |order|
    ensures forall i :: 0 <= i < |order| ==> lines[i] == EntryLine(order[i], m[order[i]])
  {
    if order == [] then []
    else Render(order[..|order| - 1], m) + [EntryLine(order[|order| - 1], m[order[|order| - 1]])]
  }

  /** `order` lists exactly `keys`, strictly ascending: the iteration order of `std::map`. */
  predicate KeyOrder(order: seq<string>, keys: set<string>)
  {
    && (forall i, j :: 0 <= i < j < |order| ==> LexLess(order[i], order[j]))
    && (forall k :: k in order ==> k in keys)
    && (forall k :: k in keys ==> k in order)
  }

  /** At most one ascending listing of a set exists. */
  lemma {:induction false} KeyOrderUnique(a: seq<string>, b: seq<string>, keys: set<string>)
    requires KeyOrder(a, keys) && KeyOrder(b, keys)
    ensures a == b
    decreases |a|
  {
    if a != [] {
      assert a[0] in keys && b != [];
    }
    if b != [] {
      assert b[0] in keys && a != [];
    }
    if a != [] {
      var x, y := a[0], b[0];
      assert x in a && x in keys && x in b;
      assert y in b && y in keys && y in a;
      if x != y {
        var i :| 0 <= i < |b| && b[i] == x;
        var j :| 0 <= j < |a| && a[j] == y;
        assert i > 0 && j > 0;
        LexLessTransitive(x, y, x);
        LexLessIrreflexive(x);
      }
      forall k
        ensures k in a[1..] <==> k in keys - {x}
      {
        if k in a[1..] {
          var i :| 1 <= i < |a| && a[i] == k;
          if k == x { LexLessIrreflexive(x); }
        }
        if k in keys - {x} {
          var i :| 0 <= i < |a| && a[i] == k;
          assert a[i] in a[1..] by { assert i != 0; }
        }
      }
      forall k
        ensures k in b[1..] <==> k in keys - {x}
      {
        if k in b[1..] {
          var i :| 1 <= i < |b| && b[i] == k;
          if k == x { LexLessIrreflexive(x); }
        }
        if k in keys - {x} {
          var i :| 0 <= i < |b| && b[i] == k;
          assert b[i] in b[1..] by { assert i != 0; }
        }
      }
      KeyOrderUnique(a[1..], b[1..], keys - {x});
      assert a == [x] + a[1..] && b == [x] + b[1..];
    }
  }

  /** `key` sorts before every other key of `remaining`. */
  predicate Least(key: string, remaining: set<string>)
  {
    key in remaining && forall k' :: k' in remaining && k' != key ==> LexLess(key, k')
  }

  /** Every non-empty finite set of strings has a least element. */
  lemma {:induction false} LeastKeyExists(s: set<string>)
    requires s != {}
    ensures exists k :: Least(k, s)
    decreases |s|
  {
    var x :| x in s;
    if s == {x} {
      assert Least(x, s);
    } else {
      LeastKeyExists(s - {x});
      var m :| Least(m, s - {x});
      LexLessTotal(m, x);
      if LexLess(m, x) {
        assert Least(m, s);
      } else {
        forall k' | k' in s && k' != x
          ensures LexLess(x, k')
        {
          if k' != m { LexLessTransitive(x, m, k'); }
        }
        assert Least(x, s);
      }
    }
  }

  // ---------------------------------------------------------------------------
  // Loading lines

  /** The loader skips empty lines and lines starting with `#` before parsing. */
  predicate SkippedLine(line: string)
  {
    line == [] || line[0] == '#'
  }

  function ApplyLine(m: map<string, string>, line: string): map<string, string>
  {
    if SkippedLine(line) then m
    else match ParseLine(line)
      case None => m
      case Some((k, v)) => m[k := v]
  }

  /** The `getline` loop: every line in file order, each overwriting its key. */
  function ApplyLines(m: map<string, string>, lines: seq<string>): map<string, string>
    decreases |lines|
  {
    if lines == [] then m
    else ApplyLine(ApplyLines(m, lines[..|lines| - 1]), lines[|lines| - 1])
  }

  /** `line` is read as an entry for `k`. */
  predicate KeyLine(line: string, k: string)
  {
    !SkippedLine(line) && ParseLine(line).Some? && ParseLine(line).value.0 == k
  }

  lemma {:induction false} ApplyLinesAppend(m: map<string, string>, a: seq<string>, b: seq<string>)
    ensures ApplyLines(m, a + b) == ApplyLines(ApplyLines(m, a), b)
    decreases |b|
  {
    if b == [] {
      assert a + b == a;
    } else {
      assert (a + b)[..|a + b| - 1] == a + b[..|b| - 1];
      assert (a + b)[|a + b| - 1] == b[|b| - 1];
      ApplyLinesAppend(m, a, b[..|b| - 1]);
    }
  }

  /** A key no line mentions keeps its presence and its value. */
  lemma {:induction false} ApplyLinesKeep(m: map<string, string>, lines: seq<string>, k: string)
    requires forall j :: 0 <= j < |lines| ==> !KeyLine(lines[j], k)
    ensures k in ApplyLines(m, lines) <==> k in m
    ensures k in m ==> ApplyLines(m, lines)[k] == m[k]
    decreases |lines|
  {
    if lines != [] {
      ApplyLinesKeep(m, lines[..|lines| - 1], k);
      ApplyLineKey(ApplyLines(m, lines[..|lines| - 1]), lines[|lines| - 1], k);
    }
  }

  /** The last line for a key decides its value: later lines win. */
  lemma {:induction false} ApplyLinesLast(m: map<string, string>, lines: seq<string>, k: string, j: nat)
    requires j < |lines| && KeyLine(lines[j], k)
    requires forall j' :: j < j' < |lines| ==> !KeyLine(lines[j'], k)
    ensures k in ApplyLines(m, lines) && ApplyLines(m, lines)[k] == ParseLine(lines[j]).value.1
    decreases |lines|
  {
    var init := lines[..|lines| - 1];
    var before := ApplyLines(m, init);
    assert ApplyLines(m, lines) == ApplyLine(before, lines[|lines| - 1]);
    if j == |lines| - 1 {
      ApplyLineKey(before, lines[j], k);
    } else {
      assert init[j] == lines[j];
      assert forall j' :: j < j' < |init| ==> init[j'] == lines[j'];
      ApplyLinesLast(m, init, k, j);
      ApplyLineKey(before, lines[|lines| - 1], k);
    }
  }

  /** One line sets `k` exactly when it is an entry for `k`, and leaves it alone otherwise. */
  lemma ApplyLineKey(m: map<string, string>, line: string, k: string)
    ensures KeyLine(line, k) ==> k in ApplyLine(m, line) && ApplyLine(m, line)[k] == ParseLine(line).value.1
    ensures !KeyLine(line, k) ==> (k in ApplyLine(m, line) <==> k in m)
    ensures !KeyLine(line, k) && k in m ==> ApplyLine(m, line)[k] == m[k]
  {
  }

  /** `config_values_[key]` read: the value, or "" when absent (where `operator[]` inserts it). */
  function Subscript(m: map<string, string>, k: string): string
  {
    if k in m then m[k] else ""
  }

  /** `builtin_defaults`: the built-in values as they stand before the file is read. */
  function Snapshot(m: map<string, string>): map<string, string>
  {
    map k | k in BuiltinKeys :: Subscript(m, k)
  }

  /** The entries the snapshot's `operator[]` reads insert. */
  function Touch(m: map<string, string>): map<string, string>
  {
    m + map k | k in BuiltinKeys && k !in m :: ""
  }

  /** The protection loop over `keys`: each built-in key left empty gets its snapshot value back. */
  function Protect(m: map<string, string>, saved: map<string, string>, keys: seq<string>): map<string, string>
    requires forall k :: k in keys ==> k in saved
    decreases |keys|
  {
    if keys == [] then m
    else
      var m1 := Protect(m, saved, keys[..|keys| - 1]);
      var k := keys[|keys| - 1];
      if Subscript(m1, k) == "" then m1[k := saved[k]] else m1
  }

  /** `LoadConfigInternal` on a readable file, from the current map `m`. */
  function LoadedValues(m: map<string, string>, lines: seq<string>): map<string, string>
  {
    Protect(ApplyLines(Touch(m), lines), Snapshot(m), BuiltinKeys)
  }

  lemma {:induction false} ProtectEffect(m: map<string, string>, saved: map<string, string>, keys: seq<string>, k: string)
    requires forall i, j :: 0 <= i < j < |keys| ==> keys[i] != keys[j]
    requires forall k' :: k' in keys ==> k' in saved
    ensures k in keys ==>
      (k in Protect(m, saved, keys)
       && Protect(m, saved, keys)[k] == if Subscript(m, k) == "" then saved[k] else m[k])
    ensures k !in keys ==>
      ((k in Protect(m, saved, keys) <==> k in m)
       && (k in m ==> Protect(m, saved, keys)[k] == m[k]))
    decreases |keys|
  {
    if keys != [] {
      var init := keys[..|keys| - 1];
      ProtectEffect(m, saved, init, k);
      if k in keys && k != keys[|keys| - 1] {
        assert k in init;
      }
    }
  }

  /**
   * After a load none of the built-in keys is empty when none was before: a
   * key the file emptied is back at its pre-load value, one the file set to a
   * non-empty value keeps it. Other keys hold what the line loop left.
   */
  lemma BuiltinsSurviveLoad(m: map<string, string>, lines: seq<string>, k: string)
    requires forall b :: b in BuiltinKeys ==> Subscript(m, b) != ""
    ensures k in BuiltinKeys ==>
      var applied := ApplyLines(Touch(m), lines);
      && k in LoadedValues(m, lines)
      && LoadedValues(m, lines)[k] != ""
      && LoadedValues(m, lines)[k] == if Subscript(applied, k) == "" then m[k] else applied[k]
    ensures k !in BuiltinKeys ==>
      (k in LoadedValues(m, lines) <==> k in ApplyLines(m, lines))
      && (k in ApplyLines(m, lines) ==> LoadedValues(m, lines)[k] == ApplyLines(m, lines)[k])
  {
    BuiltinKeysDistinct();
    ProtectEffect(ApplyLines(Touch(m), lines), Snapshot(m), BuiltinKeys, k);
    if k !in BuiltinKeys {
      TouchedApplyAgrees(m, lines, k);
    }
  }

  /** Touching built-in keys does not change what the loop leaves for any other key. */
  lemma {:induction false} TouchedApplyAgrees(m: map<string, string>, lines: seq<string>, k: string)
    requires k !in BuiltinKeys
    ensures (k in ApplyLines(Touch(m), lines) <==> k in ApplyLines(m, lines))
    ensures k in ApplyLines(m, lines) ==> ApplyLines(Touch(m), lines)[k] == ApplyLines(m, lines)[k]
    decreases |lines|
  {
    if lines != [] {
      TouchedApplyAgrees(m, lines[..|lines| - 1], k);
    }
  }

  // ---------------------------------------------------------------------------
  // Round trip through the file

  /** A key whose saved line reads back as itself. */
  predicate SaveableKey(k: string)
  {
    && (forall i :: 0 <= i < |k| ==> k[i] != '=' && k[i] != '\n')
    && (k == [] || (!IsBlank(k[0]) && !IsBlank(k[|k| - 1]) && k[0] != '#'))
  }

  /** A value whose saved form survives trimming: no space at either end (tabs are escaped). */
  predicate SaveableValue(v: string)
  {
    v == [] || (v[0] != ' ' && v[|v| - 1] != ' ')
  }

  /** Parsing a saved line gives back its key and value. */
  lemma EntryLineRoundTrip(k: string, v: string)
    requires SaveableKey(k) && SaveableValue(v)
    ensures !SkippedLine(EntryLine(k, v))
    ensures ParseLine(EntryLine(k, v)) == Some((k, v))
  {
    var line := EntryLine(k, v);
    var e := Escape(v);
    assert line == k + "=" + e;
    assert forall j :: 0 <= j < |k| ==> line[j] == k[j];
    assert line[|k|] == '=';
    assert IndexOf(line, '=') == |k|;
    assert line[..|k|] == k;
    assert line[|k| + 1..] == e;
    TrimClean(k);
    if v != [] {
      EscapeEnds(v);
    }
    TrimClean(e);
    UnescapeEscape(v);
    if k != [] {
      assert line[0] == k[0];
    }
  }

  /** Reading a saved line sets its key to its value. */
  lemma ApplyEntryLine(b: map<string, string>, k: string, v: string)
    requires SaveableKey(k) && SaveableValue(v)
    ensures ApplyLine(b, EntryLine(k, v)) == b[k := v]
  {
    EntryLineRoundTrip(k, v);
  }

  /** The entries of `m` for the keys listed in `order`. */
  function Restrict(m: map<string, string>, order: seq<string>): map<string, string>
    requires forall k :: k in order ==> k in m
  {
    map k | k in order :: m[k]
  }

  lemma RestrictSnoc(base: map<string, string>, m: map<string, string>, order: seq<string>)
    requires order != [] && forall k :: k in order ==> k in m
    ensures var k := order[|order| - 1];
      base + Restrict(m, order) == (base + Restrict(m, order[..|order| - 1]))[k := m[k]]
  {
    var init := order[..|order| - 1];
    assert forall x :: x in order <==> x in init || x == order[|order| - 1];
  }

  /** Reading back the entry lines of `m` in any listing of its keys overlays `m` on the base map. */
  lemma {:induction false} ApplyRender(base: map<string, string>, order: seq<string>, m: map<string, string>)
    requires forall k :: k in order ==> k in m
    requires forall k :: k in order ==> SaveableKey(k) && SaveableValue(m[k])
    ensures ApplyLines(base, Render(order, m)) == base + Restrict(m, order)
    decreases |order|
  {
    if order == [] {
      assert Restrict(m, order) == map[];
      assert base + map[] == base;
    } else {
      var init := order[..|order| - 1];
      var k := order[|order| - 1];
      var lines := Render(order, m);
      assert lines[..|lines| - 1] == Render(init, m);
      ApplyRender(base, init, m);
      ApplyEntryLine(base + Restrict(m, init), k, m[k]);
      RestrictSnoc(base, m, order);
    }
  }

  lemma {:induction false} ApplySkipped(m: map<string, string>, lines: seq<string>)
    requires forall j :: 0 <= j < |lines| ==> SkippedLine(lines[j])
    ensures ApplyLines(m, lines) == m
    decreases |lines|
  {
    if lines != [] {
      ApplySkipped(m, lines[..|lines| - 1]);
    }
  }

  /** The loader skips the whole header. */
  lemma HeaderSkipped(m: map<string, string>)
    ensures ApplyLines(m, Header) == m
  {
    assert Header[1] == "# Generated automatically, " + "do not edit manually";
    assert Header[0][0] == '#' && Header[1][0] == '#' && Header[2] == [];
    ApplySkipped(m, Header);
  }

  /**
   * Saving `m` and loading the file into a fresh store gives back the defaults
   * overlaid with `m`, when every key and value is saveable and no built-in
   * key of `m` is empty.
   */
  lemma SaveLoadRoundTrip(m: map<string, string>, order: seq<string>)
    requires forall k :: k in order <==> k in m
    requires forall k :: k in m ==> SaveableKey(k) && SaveableValue(m[k])
    requires forall b :: b in BuiltinKeys && b in m ==> m[b] != ""
    ensures LoadedValues(Defaults, Header + Render(order, m)) == Defaults + m
  {
    var applied := ReadBackOverDefaults(m, order);
    DefaultsShape();
    assert forall k :: k in BuiltinKeys ==> k in applied && applied[k] != "";
    ProtectNothingEmpty(applied, Snapshot(Defaults), BuiltinKeys);
  }

  /** The line loop over a saved file, from the defaults, gives the defaults overlaid with `m`. */
  lemma ReadBackOverDefaults(m: map<string, string>, order: seq<string>) returns (applied: map<string, string>)
    requires forall k :: k in order <==> k in m
    requires forall k :: k in m ==> SaveableKey(k) && SaveableValue(m[k])
    ensures applied == ApplyLines(Touch(Defaults), Header + Render(order, m))
    ensures applied == Defaults + m
  {
    DefaultsShape();
    assert Touch(Defaults) == Defaults;
    ReadBack(Defaults, m, order);
    applied := Defaults + m;
  }

  /** The saved file read over any base map overlays `m` on it. */
  lemma ReadBack(base: map<string, string>, m: map<string, string>, order: seq<string>)
    requires forall k :: k in order <==> k in m
    requires forall k :: k in m ==> SaveableKey(k) && SaveableValue(m[k])
    ensures ApplyLines(base, Header + Render(order, m)) == base + m
  {
    ApplyLinesAppend(base, Header, Render(order, m));
    HeaderSkipped(base);
    ApplyRender(base, order, m);
    RestrictAll(m, order);
  }

  /** Restricting to a listing of all its keys gives the map back. */
  lemma RestrictAll(m: map<string, string>, order: seq<string>)
    requires forall k :: k in order <==> k in m
    ensures Restrict(m, order) == m
  {
  }

  /** The protection loop changes nothing when none of its keys is empty. */
  lemma {:induction false} ProtectNothingEmpty(m: map<string, string>, saved: map<string, string>, keys: seq<string>)
    requires forall k :: k in keys ==> k in saved
    requires forall k :: k in keys ==> k in m && m[k] != ""
    ensures Protect(m, saved, keys) == m
    decreases |keys|
  {
    if keys != [] {
      ProtectNothingEmpty(m, saved, keys[..|keys| - 1]);
    }
  }

  /** The five valid keys, and so the built-in ones, can all be saved. */
  lemma ValidKeysSaveable()
    ensures forall k :: k in ValidKeys ==> SaveableKey(k)
    ensures forall k :: k in BuiltinKeys ==> k in ValidKeys
  {
    KeysSaveable();
  }

  lemma KeysSaveable()
    ensures SaveableKey(KeyProxyUrl) && SaveableKey(KeyWslLinuxDistro) && SaveableKey(KeyWslInstallerUrl)
    ensures SaveableKey(KeyWslKernelUrl) && SaveableKey(KeyPrakasaGitRepoUrl)
  {
    SaveableLowercase(KeyProxyUrl);
    SaveableLowercase(KeyWslLinuxDistro);
    SaveableLowercase(KeyWslInstallerUrl);
    SaveableLowercase(KeyWslKernelUrl);
    SaveableLowercase(KeyPrakasaGitRepoUrl);
  }

  /** Lower-case letters and underscores make a saveable key. */
  lemma SaveableLowercase(k: string)
    requires forall i :: 0 <= i < |k| ==> 'a' <= k[i] <= 'z' || k[i] == '_'
    ensures SaveableKey(k)
  {
  }

  // ---------------------------------------------------------------------------
  // The store object

  /** The files the store reads and writes, each as its lines; a path in `unwritable` cannot be opened for writing. */
  class Disk {
    var files: map<string, seq<string>>
    const unwritable: set<string>

    constructor (files: map<string, seq<string>>, unwritable: set<string>)
      ensures this.files == files && this.unwritable == unwritable
    {
      this.files := files;
      this.unwritable := unwritable;
    }
  }

  /** An empty path argument means the current path. */
  function Resolve(configPath: string, current: string): string
  {
    if configPath == "" then current else configPath
  }

  /** `files1` is `files0` with the saved form of `m` at `target`. */
  ghost predicate WroteConfig(files0: map<string, seq<string>>, files1: map<string, seq<string>>, target: string, m: map<string, string>)
  {
    exists order :: KeyOrder(order, m.Keys) && files1 == files0[target := Header + Render(order, m)]
  }

  class ConfigManager {
    const disk: Disk
    var values: map<string, string>
    var path: string

    /** The singleton's construction: defaults, then the file at `configPath` (created when missing). */
    constructor (disk: Disk, configPath: string)
      modifies disk
      ensures this.disk == disk && path == configPath
      ensures configPath in old(disk.files) ==>
        values == LoadedValues(Defaults, old(disk.files)[configPath]) && disk.files == old(disk.files)
      ensures configPath !in old(disk.files) ==>
        && values == Defaults
        && (configPath !in disk.unwritable ==> WroteConfig(old(disk.files), disk.files, configPath, Defaults))
        && (configPath in disk.unwritable ==> disk.files == old(disk.files))
    {
      this.disk := disk;
      values := map[];
      path := configPath;
      new;
      InitDefaultConfig();
      assert values == Defaults;
      var ok := LoadConfigInternal(configPath);
      assert Resolve(configPath, configPath) == configPath;
    }

    method InitDefaultConfig()
      modifies this
      ensures values == old(values) + Defaults && path == old(path)
    {
      values := values[KeyWslLinuxDistro := DefaultDistro];
      values := values[KeyWslInstallerUrl := DefaultInstallerUrl];
      values := values[KeyWslKernelUrl := DefaultKernelUrl];
      values := values[KeyPrakasaGitRepoUrl := DefaultRepoUrl];
    }

    /**
     * `LoadConfig`: clear, install the defaults and read the file at the
     * resolved path; a non-empty argument becomes the current path.
     */
    method LoadConfig(configPath: string) returns (ok: bool)
      modifies this, disk
      ensures var target := Resolve(configPath, old(path));
        && (target in old(disk.files) ==>
              ok && values == LoadedValues(Defaults, old(disk.files)[target]) && disk.files == old(disk.files))
        && (target !in old(disk.files) ==>
              values == Defaults
              && (ok <==> target !in disk.unwritable)
              && (ok ==> WroteConfig(old(disk.files), disk.files, target, Defaults))
              && (!ok ==> disk.files == old(disk.files)))
      ensures path == Resolve(configPath, old(path))
    {
      var target := Resolve(configPath, path);
      values := map[];
      InitDefaultConfig();
      assert values == Defaults;
      ok := LoadConfigInternal(target);
      if configPath != "" {
        path := configPath;
      }
    }

    /** Read `configPath` over the current map, or create it from the current map when it is missing. */
    method LoadConfigInternal(configPath: string) returns (ok: bool)
      modifies this, disk
      ensures configPath in old(disk.files) ==>
        ok && values == LoadedValues(old(values), old(disk.files)[configPath])
        && disk.files == old(disk.files) && path == old(path)
      ensures configPath !in old(disk.files) ==>
        values == old(values)
        && (ok <==> Resolve(configPath, old(path)) !in disk.unwritable)
        && (ok ==> WroteConfig(old(disk.files), disk.files, Resolve(configPath, old(path)), values))
        && (!ok ==> disk.files == old(disk.files))
        && path == (if ok && configPath != "" then configPath else old(path))
    {
      if configPath !in disk.files {
        ok := SaveConfig(configPath);
        return;
      }
      var saved := Snapshot(values);
      var applied := ReadEntries(Touch(values), disk.files[configPath]);
      values := ProtectBuiltins(applied, saved);
      ok := true;
    }

    /**
     * `SaveConfig`: the header, then one `key=escaped value` line per entry
     * in ascending key order; a non-empty argument becomes the current path
     * once the file is written.
     */
    method SaveConfig(configPath: string) returns (ok: bool)
      modifies this, disk
      ensures values == old(values)
      ensures ok <==> Resolve(configPath, old(path)) !in disk.unwritable
      ensures ok ==> WroteConfig(old(disk.files), disk.files, Resolve(configPath, old(path)), values)
      ensures !ok ==> disk.files == old(disk.files)
      ensures path == if ok && configPath != "" then configPath else old(path)
    {
      var target := Resolve(configPath, path);
      if target in disk.unwritable {
        return false;
      }
      var lines: seq<string>;
      ghost var order: seq<string>;
      lines, order := RenderFile(values);
      disk.files := disk.files[target := lines];
      if configPath != "" {
        path := configPath;
      }
      ok := true;
    }

    /** `GetConfigValue`: the stored value, or the given default for an absent key. */
    function GetConfigValue(key: string, defaultValue: string): (r: string)
      reads this
      ensures key in values ==> r == values[key]
      ensures key !in values ==> r == defaultValue
    {
      if key in values then values[key] else defaultValue
    }

    method SetConfigValue(key: string, value: string)
      modifies this
      ensures values == old(values)[key := value] && path == old(path)
      ensures GetConfigValue(key, "") == value
      ensures forall k, d :: k != key ==> GetConfigValue(k, d) == old(GetConfigValue(k, d))
    {
      values := values[key := value];
    }

    function HasConfigValue(key: string): (r: bool)
      reads this
      ensures r <==> key in values
    {
      key in values
    }

    /** The current path: set by the constructor, moved by `LoadConfig` and `SaveConfig`. */
    function GetConfigPath(): (p: string)
      reads this
      ensures p == path
    {
      path
    }

    /** `ResetToDefaults`: exactly the four defaults; `proxy_url` is absent. */
    method ResetToDefaults()
      modifies this
      ensures values == Defaults && path == old(path)
      ensures !HasConfigValue(KeyProxyUrl)
    {
      values := map[];
      InitDefaultConfig();
      DefaultsShape();
    }

    /** `GetAllConfigValues`: the listing agrees with `HasConfigValue` and `GetConfigValue` on every key. */
    function GetAllConfigValues(): (all: map<string, string>)
      reads this
      ensures forall k :: k in all <==> HasConfigValue(k)
      ensures forall k, d :: k in all ==> all[k] == GetConfigValue(k, d)
    {
      values
    }
  }

  /** The `getline` loop of `LoadConfigInternal`: each parsed line overwrites its key in `m`. */
  method ReadEntries(m: map<string, string>, lines: seq<string>) returns (r: map<string, string>)
    ensures r == ApplyLines(m, lines)
  {
    r := m;
    var i := 0;
    while i < |lines|
      invariant 0 <= i <= |lines|
      invariant r == ApplyLines(m, lines[..i])
    {
      assert lines[..i + 1][..i] == lines[..i];
      r := ReadEntry(r, lines[i]);
      i := i + 1;
    }
    assert lines[..i] == lines;
  }

  /** One iteration of the `getline` loop. */
  method ReadEntry(m: map<string, string>, line: string) returns (r: map<string, string>)
    ensures r == ApplyLine(m, line)
  {
    if line == [] || line[0] == '#' {
      return m;
    }
    var parsed, key, value := ParseKeyValue(line);
    r := if parsed then m[key := value] else m;
  }

  /** The protection loop of `LoadConfigInternal` over the built-in keys in ascending order. */
  method ProtectBuiltins(m: map<string, string>, saved: map<string, string>) returns (r: map<string, string>)
    requires forall k :: k in BuiltinKeys ==> k in saved
    ensures r == Protect(m, saved, BuiltinKeys)
  {
    r := m;
    var b := 0;
    while b < |BuiltinKeys|
      invariant 0 <= b <= |BuiltinKeys|
      invariant r == Protect(m, saved, BuiltinKeys[..b])
    {
      var key := BuiltinKeys[b];
      assert BuiltinKeys[..b + 1][..b] == BuiltinKeys[..b];
      if Subscript(r, key) == "" {
        r := r[key := saved[key]];
      }
      b := b + 1;
    }
    assert BuiltinKeys[..b] == BuiltinKeys;
  }

  /** Every listed key sorts before every remaining one. */
  predicate Below(order: seq<string>, remaining: set<string>)
  {
    forall i, k :: 0 <= i < |order| && k in remaining ==> LexLess(order[i], k)
  }

  /** Appending the least remaining key keeps the listing ascending and below what remains. */
  lemma SelectionStep(order: seq<string>, remaining: set<string>, key: string)
    requires forall i, j :: 0 <= i < j < |order| ==> LexLess(order[i], order[j])
    requires Below(order, remaining) && Least(key, remaining)
    ensures forall i, j :: 0 <= i < j < |order + [key]| ==> LexLess((order + [key])[i], (order + [key])[j])
    ensures Below(order + [key], remaining - {key})
  {
    var o := order + [key];
    assert forall i :: 0 <= i < |order| ==> o[i] == order[i];
  }

  /** The text `SaveConfig` writes for `m`: the header, then one entry line per key in ascending order. */
  method RenderFile(m: map<string, string>) returns (lines: seq<string>, ghost order: seq<string>)
    ensures KeyOrder(order, m.Keys)
    ensures lines == Header + Render(order, m)
  {
    lines := Header;
    var remaining := m.Keys;
    order := [];
    while remaining != {}
      invariant remaining <= m.Keys
      invariant forall k :: k in order <==> k in m.Keys && k !in remaining
      invariant forall i, j :: 0 <= i < j < |order| ==> LexLess(order[i], order[j])
      invariant Below(order, remaining)
      invariant lines == Header + Render(order, m)
      decreases remaining
    {
      LeastKeyExists(remaining);
      var key :| Least(key, remaining);
      var escaped := EscapeValue(m[key]);
      AppendAssoc(Header, Render(order, m), [key + "=" + escaped]);
      assert (order + [key])[..|order|] == order;
      SelectionStep(order, remaining, key);
      lines := lines + [key + "=" + escaped];
      order := order + [key];
      remaining := remaining - {key};
    }
  }

  /** `IsValidConfigKey`: exactly the five listed keys. */
  function IsValidConfigKey(key: string): (r: bool)
    ensures r <==> key == KeyProxyUrl || key == KeyWslLinuxDistro || key == KeyWslInstallerUrl
                   || key == KeyWslKernelUrl || key == KeyPrakasaGitRepoUrl
  {
    key in ValidKeys
  }
}
