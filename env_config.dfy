/** The start-up configuration of backend-server-simple.ts: the `.env` file reader and the
    database and HTTP settings taken from it, each with its default. */
module EnvConfig {
  import opened Wrappers
  import opened Text
  import opened Numerals

  type Env = map<string, string>

  /** One `KEY=VALUE` setting of a `.env` line. */
  datatype Entry = Entry(key: string, value: string)

  predicate IsQuote(c: char) {
    c == '"' || c == '\''
  }

  /** `value.replace(/^["']|["']$/g, '')`: one quote character at the start and one at the end
      are dropped, each independently of the other. */
  function StripQuotes(v: string): (r: string)
    ensures |r| <= |v|
    ensures v == [] || (!IsQuote(v[0]) && !IsQuote(v[|v| - 1])) ==> r == v
  {
    var a := if v != [] && IsQuote(v[0]) then v[1..] else v;
    if a != [] && IsQuote(a[|a| - 1]) then a[..|a| - 1] else a
  }

  /** Whatever a value holds, wrapping it in a pair of quotes, of either kind, and stripping them
      gives it back. */
  lemma StripQuotesOfQuoted(s: string, q: char)
    requires IsQuote(q)
    ensures StripQuotes([q] + s + [q]) == s
  {
    var v := [q] + s + [q];
    assert v[1..] == s + [q];
    assert (s + [q])[..|s|] == s;
  }

  /** What one line of the file contributes: nothing for a blank line, a `#` comment, or a line
      without `=` or without a key before it; otherwise the trimmed key and the trimmed,
      unquoted text after the first `=`, which keeps any further `=`. */
  function ParseLine(line: string): (r: Option<Entry>)
    ensures Trim(line) == [] || StartsWith(Trim(line), "#") || '=' !in Trim(line) ==> r.None?
    ensures Trim(line) != [] && Trim(line)[0] == '=' ==> r.None?
    ensures r.Some? ==> r.value.key != [] && '=' !in r.value.key && Trim(r.value.key) == r.value.key
  {
    var t := Trim(line);
    if t == [] || StartsWith(t, "#") then None
    else
      IndexOfFinds(t, '=');
      SplitStep(t, '=');
      var parts := Split(t, '=');
      var key := parts[0];
      if key != [] && |parts| > 1 then
        KeyKeepsShape(t, key);
        TrimIdempotent(key);
        Some(Entry(Trim(key), StripQuotes(Trim(Join(parts[1..], '=')))))
      else None
  }

  /** The key cut from the front of a trimmed line is not white space only, and trimming it
      cannot bring in an `=`. */
  lemma KeyKeepsShape(t: string, key: string)
    requires t != [] && !IsSpace(t[0])
    requires key == Split(t, '=')[0] && key != []
    ensures Trim(key) != [] && '=' !in Trim(key)
  {
    IndexOfFinds(t, '=');
    assert key[0] == t[0];
    var k := Trim(key);
    assert TrimStart(key) == key;
    assert k == key[..|k|];
  }

  /** One line's setting applied to the environment built so far. */
  function Apply(env: Env, e: Option<Entry>): Env {
    match e
    case None => env
    case Some(x) => env[x.key := x.value]
  }

  /** The settings applied in order, a later one replacing an earlier one of the same key. */
  function Assign(entries: seq<Option<Entry>>): Env {
    if entries == [] then map[] else Apply(Assign(entries[..|entries| - 1]), entries[|entries| - 1])
  }

  predicate Sets(e: Option<Entry>, k: string) {
    e.Some? && e.value.key == k
  }

  /** A key is set exactly when some entry sets it, and it holds the value of the last entry
      that does. */
  lemma {:induction false} LastAssignmentWins(entries: seq<Option<Entry>>, k: string)
    ensures k in Assign(entries) <==> exists i :: 0 <= i < |entries| && Sets(entries[i], k)
    ensures k in Assign(entries) ==> exists i :: (0 <= i < |entries| && Sets(entries[i], k)
      && Assign(entries)[k] == entries[i].value.value
      && forall j :: i < j < |entries| ==> !Sets(entries[j], k))
  {
    if entries != [] {
      var init, n := entries[..|entries| - 1], |entries| - 1;
      LastAssignmentWins(init, k);
      if Sets(entries[n], k) {
        assert Assign(entries)[k] == entries[n].value.value;
      } else {
        assert Assign(entries) == Apply(Assign(init), entries[n]);
        assert k in Assign(entries) <==> k in Assign(init);
        if k in Assign(init) {
          var i :| 0 <= i < |init| && Sets(init[i], k)
            && Assign(init)[k] == init[i].value.value
            && forall j :: i < j < |init| ==> !Sets(init[j], k);
          assert entries[i] == init[i];
          forall j | i < j < |entries| ensures !Sets(entries[j], k) {
            if j < n {
              assert entries[j] == init[j];
            }
          }
        }
        if exists i :: 0 <= i < |entries| && Sets(entries[i], k) {
          var i :| 0 <= i < |entries| && Sets(entries[i], k);
          assert init[i] == entries[i];
        }
        if exists i :: 0 <= i < |init| && Sets(init[i], k) {
          var i :| 0 <= i < |init| && Sets(init[i], k);
          assert entries[i] == init[i];
        }
      }
    }
  }

  /** What each line of the file sets. */
  function ParseLines(lines: seq<string>): (r: seq<Option<Entry>>)
    ensures |r| == |lines|
    ensures forall i :: 0 <= i < |lines| ==> r[i] == ParseLine(lines[i])
  {
    seq(|lines|, i requires 0 <= i < |lines| => ParseLine(lines[i]))
  }

  /** The environment the file's lines build. */
  function ParseEnv(lines: seq<string>): Env {
    Assign(ParseLines(lines))
  }

  /** A key is set exactly when some line of the file defines it, to the value the last such
      line gives it. */
  lemma LastDefinitionWins(lines: seq<string>, k: string)
    ensures k in ParseEnv(lines) <==> exists i :: 0 <= i < |lines| && Sets(ParseLine(lines[i]), k)
    ensures k in ParseEnv(lines) ==> exists i :: (0 <= i < |lines| && Sets(ParseLine(lines[i]), k)
      && ParseEnv(lines)[k] == ParseLine(lines[i]).value.value
      && forall j :: i < j < |lines| ==> !Sets(ParseLine(lines[j]), k))
  {
    LastAssignmentWins(ParseLines(lines), k);
  }

  /** A line `KEY=VALUE`, with any white space around the key, around the `=` and at the
      ends, reads back as the key without that white space and the value trimmed and
      unquoted, including any `=` inside the value; the key must not start a comment. */
  lemma {:induction false} ParseLineOf(sp1: string, key: string, sp2: string, rest: string)
    requires AllSpace(sp1) && AllSpace(sp2)
    requires key != [] && !IsSpace(key[0]) && !IsSpace(key[|key| - 1]) && key[0] != '#' && '=' !in key
    ensures ParseLine(sp1 + key + sp2 + "=" + rest) == Some(Entry(key, StripQuotes(Trim(rest))))
  {
    var sp3, v, sp4 := CutSpace(rest);
    PaddedLine(sp1, key, sp2, rest, sp3, v, sp4);
    assert Trim(rest) == v by { TrimOf(sp3, v, sp4); }
  }

  /** `ParseLineOf` with the value already cut into its white space and its trim. */
  lemma {:induction false} PaddedLine(sp1: string, key: string, sp2: string, rest: string,
                                      sp3: string, v: string, sp4: string)
    requires AllSpace(sp1) && AllSpace(sp2) && AllSpace(sp3) && AllSpace(sp4)
    requires key != [] && !IsSpace(key[0]) && !IsSpace(key[|key| - 1]) && key[0] != '#' && '=' !in key
    requires v == [] || (!IsSpace(v[0]) && !IsSpace(v[|v| - 1]))
    requires rest == sp3 + v + sp4
    ensures ParseLine(sp1 + key + sp2 + "=" + rest) == Some(Entry(key, StripQuotes(v)))
  {
    var line := sp1 + key + sp2 + "=" + rest;
    var k2 := key + sp2;
    var r2 := if v == [] then [] else sp3 + v;
    var t := k2 + "=" + r2;
    assert Trim(line) == t by {
      assert k2[0] == key[0];
      TrimmedLine(sp1, k2, sp3, v, sp4);
      Assoc(sp1, key, sp2);
    }
    assert Trim(k2) == key by {
      TrimOf([], key, sp2);
      assert [] + key + sp2 == k2;
    }
    assert Trim(r2) == v by {
      if v != [] {
        TrimOf(sp3, v, []);
        assert sp3 + v + [] == r2;
      }
    }
    PaddedKey(key, sp2);
    assert t != [] && t[0] != '#' by {
      assert t[0] == key[0];
    }
    NoComment(t);
    KeyValueLine(k2, r2);
    ParseLineParts(line, t, k2, r2);
  }

  /** White space after a key brings in no `=`. */
  lemma PaddedKey(key: string, sp: string)
    requires '=' !in key && AllSpace(sp)
    ensures '=' !in key + sp
  {
    assert forall j :: 0 <= j < |sp| ==> sp[j] != '=';
  }

  /** A line whose first character is not `#` is no comment. */
  lemma NoComment(t: string)
    requires t != [] && t[0] != '#'
    ensures !StartsWith(t, "#")
  {
    assert t[..1][0] == t[0];
  }

  /** Trimming a line `sp1 + k2 + "=" + sp3 + v + sp4` leaves `k2 + "="`, then `sp3 + v` when
      there is a value. */
  lemma {:induction false} TrimmedLine(sp1: string, k2: string, sp3: string, v: string, sp4: string)
    requires AllSpace(sp1) && AllSpace(sp3) && AllSpace(sp4)
    requires k2 != [] && !IsSpace(k2[0])
    requires v == [] || (!IsSpace(v[0]) && !IsSpace(v[|v| - 1]))
    ensures Trim(sp1 + k2 + "=" + (sp3 + v + sp4)) == k2 + "=" + (if v == [] then [] else sp3 + v)
  {
    if v == [] {
      var m := k2 + "=";
      var b := sp3 + sp4;
      assert AllSpace(b) by {
        assert forall j :: 0 <= j < |b| ==> b[j] == if j < |sp3| then sp3[j] else sp4[j - |sp3|];
      }
      assert !IsSpace(m[0]) && !IsSpace(m[|m| - 1]) by {
        assert m[0] == k2[0] && m[|m| - 1] == '=';
      }
      TrimOf(sp1, m, b);
      LineShape(sp1, k2, sp3, v, sp4);
    } else {
      var m := k2 + "=" + sp3 + v;
      assert !IsSpace(m[0]) && !IsSpace(m[|m| - 1]) by {
        assert m[0] == k2[0] && m[|m| - 1] == v[|v| - 1];
      }
      TrimOf(sp1, m, sp4);
      LineShape(sp1, k2, sp3, v, sp4);
    }
  }

  /** The same line, grouped as the trim sees it. */
  lemma LineShape(sp1: string, k2: string, sp3: string, v: string, sp4: string)
    ensures v == [] ==> sp1 + k2 + "=" + (sp3 + v + sp4) == sp1 + (k2 + "=") + (sp3 + sp4)
    ensures v == [] ==> k2 + "=" + [] == k2 + "="
    ensures sp1 + k2 + "=" + (sp3 + v + sp4) == sp1 + (k2 + "=" + sp3 + v) + sp4
    ensures k2 + "=" + sp3 + v == k2 + "=" + (sp3 + v)
  {
    if v == [] {
      assert sp3 + v + sp4 == sp3 + sp4;
    }
  }

  /** A key without `=` in front of the first `=`: the split's first part is the key and the
      rest joins back into the text after it. */
  lemma {:induction false} KeyValueLine(k2: string, r2: string)
    requires '=' !in k2
    ensures var parts := Split(k2 + "=" + r2, '=');
      parts[0] == k2 && |parts| > 1 && Join(parts[1..], '=') == r2
  {
    var t := k2 + "=" + r2;
    assert IndexOf(t, '=') == |k2| by {
      IndexOfAppend(k2, "=" + r2, '=');
      IndexOfFinds(k2, '=');
      assert t == k2 + ("=" + r2);
    }
    SplitStep(t, '=');
    assert t[..|k2|] == k2;
    SplitRest(t, '=');
    assert t[|k2| + 1..] == r2;
  }

  /** How `ParseLine` reads a line, given its trim and the parts around the trim's first `=`. */
  lemma ParseLineParts(line: string, t: string, key: string, value: string)
    requires Trim(line) == t && t != [] && !StartsWith(t, "#")
    requires Split(t, '=')[0] == key && |Split(t, '=')| > 1
    requires Join(Split(t, '=')[1..], '=') == value
    requires key != []
    ensures ParseLine(line) == Some(Entry(Trim(key), StripQuotes(Trim(value))))
  {
  }

  /** A quoted value comes back as written, whatever it holds, with or without white space
      around the key. */
  lemma ParseQuotedLine(sp1: string, key: string, sp2: string, value: string, q: char)
    requires AllSpace(sp1) && AllSpace(sp2)
    requires key != [] && !IsSpace(key[0]) && !IsSpace(key[|key| - 1]) && key[0] != '#' && '=' !in key
    requires IsQuote(q)
    ensures ParseLine(sp1 + key + sp2 + "=" + ([q] + value + [q])) == Some(Entry(key, value))
  {
    var rest := [q] + value + [q];
    assert StripQuotes(Trim(rest)) == value by {
      assert rest[0] == q && rest[|rest| - 1] == q;
      TrimNone(rest);
      StripQuotesOfQuoted(value, q);
    }
    ParseLineOf(sp1, key, sp2, rest);
  }

  /** The body of the loop over the lines: a line with a setting stores it. */
  method Store(env: Env, line: string) returns (env': Env)
    ensures env' == Apply(env, ParseLine(line))
  {
    env' := env;
    var entry := ParseLine(line);
    if entry.Some? {
      env' := env'[entry.value.key := entry.value.value];
    }
  }

  /** `loadEnvFile`: reads the file line by line; an unreadable file gives no settings. */
  method LoadEnv(file: Option<string>) returns (env: Env)
    ensures file.None? ==> env == map[]
    ensures file.Some? ==> env == ParseEnv(Split(file.value, '\n'))
  {
    env := map[];
    if file.None? {
      return;
    }
    var lines := Split(file.value, '\n');
    ghost var entries := ParseLines(lines);
    for i := 0 to |lines|
      invariant env == Assign(entries[..i])
    {
      env := Store(env, lines[i]);
      assert entries[..i + 1][..i] == entries[..i];
    }
    assert entries[..|lines|] == entries;
  }

  // ---- parseInt ----

  /** The longest run of `radix` digits at the start of `s`. */
  function DigitPrefix(s: string, radix: nat): (r: string)
    ensures |r| <= |s| && r == s[..|r|]
    ensures forall i :: 0 <= i < |r| ==> IsDigit(r[i], radix)
    ensures |r| < |s| ==> !IsDigit(s[|r|], radix)
  {
    if s != [] && IsDigit(s[0], radix) then [s[0]] + DigitPrefix(s[1..], radix) else []
  }

  /** The value of the digits at the start of `s`, or `None` (`NaN`) when there are none. */
  function Digits(s: string, radix: nat): Option<int> {
    var ds := DigitPrefix(s, radix);
    if ds == [] then None else Some(DigitsValue(ds, radix))
  }

  /** A number without sign: `0x` or `0X` selects hexadecimal. */
  function Unsigned(u: string): Option<int> {
    if StartsWith(u, "0x") || StartsWith(u, "0X") then Digits(u[2..], 16) else Digits(u, 10)
  }

  function Negated(o: Option<int>): Option<int> {
    if o.Some? then Some(-o.value) else None
  }

  /** An optional sign, then a number. */
  function Signed(t: string): Option<int> {
    if t != [] && t[0] == '-' then Negated(Unsigned(t[1..]))
    else if t != [] && t[0] == '+' then Unsigned(t[1..])
    else Unsigned(t)
  }

  /** JavaScript `parseInt(s)` with no radix: leading white space, an optional sign, `0x` or
      `0X` for hexadecimal, then as many digits as there are; `None` stands for `NaN`. */
  function ParseInt(s: string): (r: Option<int>)
    ensures TrimStart(s) == [] ==> r.None?
    ensures var u := TrimStart(s);
      u != [] && !('0' <= u[0] <= '9') && u[0] != '-' && u[0] != '+' ==> r.None?
  {
    var u := TrimStart(s);
    NotANumber(u);
    Signed(u)
  }

  /** Text that starts with neither a digit nor a sign reads as `NaN`. */
  lemma NotANumber(u: string)
    ensures u == [] || (!('0' <= u[0] <= '9') && u[0] != '-' && u[0] != '+') ==> Signed(u).None?
  {
    if u != [] && !('0' <= u[0] <= '9') && u[0] != '-' && u[0] != '+' {
      assert !StartsWith(u, "0x") && !StartsWith(u, "0X") by {
        assert |u| >= 2 ==> u[..2][0] == u[0];
      }
      assert DigitPrefix(u, 10) == [];
    }
  }

  /** White space in front of a number changes nothing. */
  lemma ParseIntSkipsSpace(sp: string, s: string)
    requires AllSpace(sp)
    ensures ParseInt(sp + s) == ParseInt(s)
  {
    TrimStartSpaces(sp, s);
  }

  /** A run of digits followed by something that is not a digit or letter is read as itself. */
  lemma {:induction false} DigitPrefixOf(ds: string, rest: string, radix: nat)
    requires forall i :: 0 <= i < |ds| ==> IsDigit(ds[i], radix)
    requires rest == [] || !IsDigit(rest[0], radix)
    ensures DigitPrefix(ds + rest, radix) == ds
  {
    if ds != [] {
      assert (ds + rest)[1..] == ds[1..] + rest;
      DigitPrefixOf(ds[1..], rest, radix);
    } else {
      assert ds + rest == rest;
    }
  }

  /** A printed number followed by something that is neither a digit nor a letter has no hex
      prefix, and its digits are the run `parseInt` reads. */
  lemma DecimalRun(n: nat, rest: string)
    requires rest == [] || CharValue(rest[0]) == -1
    ensures var u := Decimal(n) + rest;
      && u != [] && '0' <= u[0] <= '9'
      && !StartsWith(u, "0x") && !StartsWith(u, "0X")
      && DigitPrefix(u, 10) == Decimal(n)
  {
    var d := Decimal(n);
    DigitPrefixOf(d, rest, 10);
    var u := d + rest;
    assert u[0] == d[0];
    if |d| == 1 {
      assert rest == [] || u[1] == rest[0];
    } else {
      assert u[1] == d[1];
    }
  }

  /** The digits of a printed number, followed by something that cannot continue them, read
      as that number. */
  lemma UnsignedOfDecimal(n: nat, rest: string)
    requires rest == [] || CharValue(rest[0]) == -1
    ensures Unsigned(Decimal(n) + rest) == Some(n)
  {
    DecimalRun(n, rest);
    DigitsValueOfDecimal(n);
  }

  /** Text starting with a digit has no white space or sign to skip. */
  lemma ParseIntOfDigit(u: string)
    requires u != [] && '0' <= u[0] <= '9'
    ensures ParseInt(u) == Unsigned(u)
  {
    assert !IsSpace(u[0]);
    TrimStartNone(u);
  }

  /** A minus sign before text starting with a digit negates what the text reads as. */
  lemma ParseIntOfMinus(u: string, v: int)
    requires u != [] && '0' <= u[0] <= '9' && Unsigned(u) == Some(v)
    ensures ParseInt(['-'] + u) == Some(-v)
  {
    var m := ['-'] + u;
    assert m[0] == '-' && m[1..] == u;
    assert !IsSpace(m[0]);
    TrimStartNone(m);
  }

  /** A printed number reads back as itself, and `parseInt` stops at the first character that
      cannot continue it. */
  lemma ParseIntOfDecimal(n: nat, rest: string)
    requires rest == [] || CharValue(rest[0]) == -1
    ensures ParseInt(Decimal(n) + rest) == Some(n)
  {
    DecimalRun(n, rest);
    UnsignedOfDecimal(n, rest);
    ParseIntOfDigit(Decimal(n) + rest);
  }

  /** The same with a minus sign in front. */
  lemma ParseIntOfNegative(n: nat, rest: string)
    requires rest == [] || CharValue(rest[0]) == -1
    ensures ParseInt(['-'] + (Decimal(n) + rest)) == Some(-(n as int))
  {
    DecimalRun(n, rest);
    UnsignedOfDecimal(n, rest);
    ParseIntOfMinus(Decimal(n) + rest, n);
  }

  // ---- settings ----

  /** `env.KEY || fallback`: a stored, non-empty setting is used; a missing or empty one gives
      the fallback. */
  function Setting(env: Env, key: string, fallback: string): (r: string)
    ensures key in env && env[key] != "" ==> r == env[key]
    ensures key !in env || env[key] == "" ==> r == fallback
    ensures r == "" ==> fallback == ""
  {
    if key in env && env[key] != "" then env[key] else fallback
  }

  /** `parseInt(env.KEY) || fallback`: a missing setting, one that does not read as a number,
      and one that reads as 0 all give the fallback. */
  function PortSetting(env: Env, key: string, fallback: int): (r: int)
    ensures key in env && ParseInt(env[key]).Some? && ParseInt(env[key]).value != 0 ==>
      r == ParseInt(env[key]).value
    ensures key !in env || ParseInt(env[key]).None? || ParseInt(env[key]) == Some(0) ==> r == fallback
    ensures r == 0 ==> fallback == 0
  {
    if key !in env then fallback
    else
      match ParseInt(env[key])
      case Some(n) => if n != 0 then n else fallback
      case None => fallback
  }

  datatype DbConfig = DbConfig(host: string, port: int, database: string, username: string, password: string)

  datatype ServerConfig = ServerConfig(port: int, host: string)

  /** The database settings, each read from its own key with its own default; every one but
      the password is non-empty. */
  function DbConfigOf(env: Env): (r: DbConfig)
    ensures r.host == Setting(env, "DB_HOST", "localhost") && r.port == PortSetting(env, "DB_PORT", 3306)
    ensures r.database == Setting(env, "DB_NAME", "simulations") && r.username == Setting(env, "DB_USERNAME", "root")
    ensures r.password == Setting(env, "DB_PASSWORD", "")
    ensures r.host != "" && r.port != 0 && r.database != "" && r.username != ""
    ensures env == map[] ==> r == DbConfig("localhost", 3306, "simulations", "root", "")
  {
    DbConfig(Setting(env, "DB_HOST", "localhost"), PortSetting(env, "DB_PORT", 3306),
             Setting(env, "DB_NAME", "simulations"), Setting(env, "DB_USERNAME", "root"),
             Setting(env, "DB_PASSWORD", ""))
  }

  /** The HTTP listener settings. */
  function ServerConfigOf(env: Env): (r: ServerConfig)
    ensures r.port == PortSetting(env, "SERVER_PORT", 3000) && r.host == Setting(env, "SERVER_HOST", "localhost")
    ensures r.port != 0 && r.host != ""
    ensures env == map[] ==> r == ServerConfig(3000, "localhost")
  {
    ServerConfig(PortSetting(env, "SERVER_PORT", 3000), Setting(env, "SERVER_HOST", "localhost"))
  }

  /** A port written as a positive decimal number is used as is. */
  lemma PortSettingOfDecimal(env: Env, key: string, n: nat, fallback: int)
    requires n > 0
    ensures PortSetting(env[key := Decimal(n)], key, fallback) == n
  {
    ParseIntOfPrinted(n);
  }

  /** A printed number on its own reads back as itself. */
  lemma ParseIntOfPrinted(n: nat)
    ensures ParseInt(Decimal(n)) == Some(n)
  {
    ParseIntOfDecimal(n, []);
    assert Decimal(n) + [] == Decimal(n);
  }
}
