/**
 * scripts/verify-secrets.js, the first part: each required secret is looked up in the
 * environment, in list order; an unset or empty one is reported missing, and a present
 * CLOUDFLARE_ACCOUNT_ID that is not 32 lower-case hexadecimal digits only draws a
 * warning. After the whole list, the script exits 1 if anything was missing.
 *
 * `process.env` (after dotenv) is a map; console lines are values.
 */
module VerifySecrets {
  import opened Wrappers

  /** `REQUIRED_SECRETS` */
  const RequiredSecrets: seq<string> :=
    ["CLOUDFLARE_API_TOKEN", "CLOUDFLARE_ACCOUNT_ID", "D1_DATABASE_ID", "KV_CACHE_ID", "KV_SESSION_STORE_ID"]

  const AccountId := "CLOUDFLARE_ACCOUNT_ID"

  type Env = map<string, string>

  /** `!process.env[name]`: unset, or the empty string. */
  predicate IsMissing(env: Env, name: string) {
    name !in env || env[name] == ""
  }

  predicate IsLowerHexDigit(c: char) {
    ('0' <= c <= '9') || ('a' <= c <= 'f')
  }

  /** `/^[0-9a-f]{32}$/.test(v)` */
  predicate IsHex32(v: string) {
    |v| == 32 && forall i :: 0 <= i < |v| ==> IsLowerHexDigit(v[i])
  }

  /** One console line of the check. */
  datatype Line =
    | MissingLine(name: string)        // "❌ <name>が設定されていません"
    | FormatWarning(name: string)      // "⚠️ <name>の形式が正しくない可能性があります"
    | PresentLine(name: string)        // "✅ <name>が設定されています"

  /** What happens after the list has been checked. */
  datatype Outcome =
    | MissingSecrets(lines: seq<Line>)   // the closing error line and exit 1
    | AllPresent(lines: seq<Line>)       // the script goes on to the Cloudflare API probes

  /** The lines the check of one name prints. */
  function CheckLines(env: Env, name: string): seq<Line> {
    if IsMissing(env, name) then [MissingLine(name)]
    else if name == AccountId && !IsHex32(env[name]) then [FormatWarning(name), PresentLine(name)]
    else [PresentLine(name)]
  }

  /** The lines the `forEach` over `names` prints. */
  function Report(env: Env, names: seq<string>): seq<Line> {
    if names == [] then []
    else Report(env, names[..|names| - 1]) + CheckLines(env, names[|names| - 1])
  }

  predicate AnyMissing(env: Env, names: seq<string>) {
    exists i :: 0 <= i < |names| && IsMissing(env, names[i])
  }

  /** The verdict lines 44-47 reach. */
  function Verify(env: Env): Outcome {
    var lines := Report(env, RequiredSecrets);
    if AnyMissing(env, RequiredSecrets) then MissingSecrets(lines) else AllPresent(lines)
  }

  function ExitCode(o: Outcome): nat {
    if o.MissingSecrets? then 1 else 0
  }

  /** The names whose verdict (missing or present) a sequence of lines reports, in order. */
  function Checked(lines: seq<Line>): seq<string> {
    if lines == [] then []
    else Checked(lines[..|lines| - 1]) +
         (if lines[|lines| - 1].FormatWarning? then [] else [lines[|lines| - 1].name])
  }

  lemma {:induction false} CheckedAppend(a: seq<Line>, b: seq<Line>)
    ensures Checked(a + b) == Checked(a) + Checked(b)
    decreases |b|
  {
    if b == [] {
      assert a + b == a;
    } else {
      var b' := b[..|b| - 1];
      assert (a + b)[..|a + b| - 1] == a + b';
      assert b[..|b| - 1] == b';
      CheckedAppend(a, b');
    }
  }

  lemma AnyMissingStep(env: Env, names: seq<string>, i: nat)
    requires i < |names|
    ensures AnyMissing(env, names[..i + 1]) <==> AnyMissing(env, names[..i]) || IsMissing(env, names[i])
  {
    if AnyMissing(env, names[..i]) {
      var j :| 0 <= j < i && IsMissing(env, names[..i][j]);
      assert names[..i + 1][j] == names[..i][j];
    }
    if AnyMissing(env, names[..i + 1]) && !IsMissing(env, names[i]) {
      var j :| 0 <= j < i + 1 && IsMissing(env, names[..i + 1][j]);
      assert names[..i][j] == names[..i + 1][j];
    }
    assert names[..i + 1][i] == names[i];
  }

  /** The `forEach` over the list: the lines printed and the `missingSecrets` flag it leaves. */
  method CheckSecrets(env: Env, names: seq<string>) returns (lines: seq<Line>, missingSecrets: bool)
    ensures lines == Report(env, names)
    ensures missingSecrets <==> AnyMissing(env, names)
  {
    lines, missingSecrets := [], false;
    for i := 0 to |names|
      invariant lines == Report(env, names[..i])
      invariant missingSecrets <==> AnyMissing(env, names[..i])
    {
      var secretName := names[i];
      assert names[..i + 1][..i] == names[..i];
      if secretName !in env || env[secretName] == "" {
        lines := lines + [MissingLine(secretName)];
        missingSecrets := true;
      } else {
        if secretName == AccountId && !IsHex32(env[secretName]) {
          lines := lines + [FormatWarning(secretName)];
        }
        lines := lines + [PresentLine(secretName)];
      }
      AnyMissingStep(env, names, i);
    }
    assert names[..|names|] == names;
  }

  /** The script: the check of `REQUIRED_SECRETS`, then the branch on `missingSecrets`. */
  method VerifySecretsScript(env: Env) returns (outcome: Outcome)
    ensures outcome == Verify(env)
  {
    var lines, missingSecrets := CheckSecrets(env, RequiredSecrets);
    if missingSecrets {
      return MissingSecrets(lines);
    }
    outcome := AllPresent(lines);
  }

  /** The lines for one name hold one verdict, for that name. */
  lemma CheckLinesVerdict(env: Env, name: string)
    ensures Checked(CheckLines(env, name)) == [name]
  {
    var lines := CheckLines(env, name);
    if |lines| == 2 {
      assert lines[..1] == [FormatWarning(name)];
      assert Checked(lines[..1]) == [];
    } else {
      assert lines[..0] == [];
    }
  }

  /** Every name gets exactly one verdict line, in list order, whether or not an earlier one was missing. */
  lemma {:induction false} EveryNameChecked(env: Env, names: seq<string>)
    ensures Checked(Report(env, names)) == names
  {
    if names != [] {
      var init := names[..|names| - 1];
      var name := names[|names| - 1];
      var before, lines := Report(env, init), CheckLines(env, name);
      assert Report(env, names) == before + lines;
      assert Checked(before) == init by {
        EveryNameChecked(env, init);
      }
      assert Checked(lines) == [name] by {
        CheckLinesVerdict(env, name);
      }
      assert Checked(before + lines) == Checked(before) + Checked(lines) by {
        CheckedAppend(before, lines);
      }
      assert init + [name] == names;
    }
  }

  /**
   * A name is reported missing exactly when it is in the list and unset or empty; a
   * format warning only ever concerns a present CLOUDFLARE_ACCOUNT_ID that is not 32
   * lower-case hex digits, and that name is still reported present.
   */
  lemma {:induction false} ReportLines(env: Env, names: seq<string>, name: string)
    ensures MissingLine(name) in Report(env, names) <==> name in names && IsMissing(env, name)
    ensures PresentLine(name) in Report(env, names) <==> name in names && !IsMissing(env, name)
    ensures FormatWarning(name) in Report(env, names) <==>
      name in names && name == AccountId && !IsMissing(env, name) && !IsHex32(env[name])
  {
    if names != [] {
      var init, last := names[..|names| - 1], names[|names| - 1];
      var before, lines := Report(env, init), CheckLines(env, last);
      assert Report(env, names) == before + lines;
      assert names == init + [last];
      assert name in names <==> name in init || name == last;
      ReportLines(env, init, name);
      assert MissingLine(name) in lines <==> name == last && IsMissing(env, name);
      assert PresentLine(name) in lines <==> name == last && !IsMissing(env, name);
      assert FormatWarning(name) in lines <==>
        name == last && name == AccountId && !IsMissing(env, name) && !IsHex32(env[name]);
    }
  }

  /**
   * The script exits 1 exactly when some required name is missing, and either way only
   * after all five names have had their verdict line.
   */
  lemma ExitIffMissing(env: Env)
    ensures ExitCode(Verify(env)) == 1 <==> exists name :: name in RequiredSecrets && IsMissing(env, name)
    ensures Checked(Verify(env).lines) == RequiredSecrets
  {
    EveryNameChecked(env, RequiredSecrets);
    if exists name :: name in RequiredSecrets && IsMissing(env, name) {
      var name :| name in RequiredSecrets && IsMissing(env, name);
      var i :| 0 <= i < |RequiredSecrets| && RequiredSecrets[i] == name;
      assert AnyMissing(env, RequiredSecrets);
    }
  }

  /** A malformed account id with everything set passes, with a warning. */
  lemma MalformedAccountIdOnlyWarns(env: Env)
    requires forall name :: name in RequiredSecrets ==> name in env && env[name] != ""
    requires !IsHex32(env[AccountId])
    ensures Verify(env).AllPresent?
    ensures FormatWarning(AccountId) in Verify(env).lines && PresentLine(AccountId) in Verify(env).lines
  {
    assert AccountId in RequiredSecrets;
    ReportLines(env, RequiredSecrets, AccountId);
  }
}
