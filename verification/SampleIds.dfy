/** The names of the boot benchmark: sample IDs, launch group IDs and the fixed conditions
    (tools/vm-boot-benchmark.py). */
module SampleIds {

  datatype Implementation = Baseline | Candidate

  /** How the run of a sample ended on the host. */
  datatype Teardown = Destroyed | NotNeeded | Failed

  function Other(i: Implementation): Implementation { if i == Baseline then Candidate else Baseline }

  const SERIAL_PREPARED := "serial-prepared"
  const CONCURRENT_PREPARED := "concurrent-4-prepared"
  const SERIAL_BACKGROUND := "serial-background-cache"
  const CONCURRENT_BACKGROUND := "concurrent-4-background-cache-archive"

  predicate IsCondition(name: string) {
    name == SERIAL_PREPARED || name == CONCURRENT_PREPARED || name == SERIAL_BACKGROUND || name == CONCURRENT_BACKGROUND
  }

  /** `launch_concurrency` of a condition. */
  function Concurrency(name: string): nat {
    if name == CONCURRENT_PREPARED || name == CONCURRENT_BACKGROUND then 4 else 1
  }

  function ImplementationName(i: Implementation): string {
    match i case Baseline => "baseline" case Candidate => "candidate"
  }

  // ------------------------------------------------------------ padded numbers

  function Digit(d: nat): char
    requires d < 10
  {
    '0' + d as char
  }

  function Digits(n: nat): string {
    if n < 10 then [Digit(n)] else Digits(n / 10) + [Digit(n % 10)]
  }

  function Zeros(n: nat): string { if n == 0 then "" else "0" + Zeros(n - 1) }

  function Padded(n: nat, width: nat): string {
    var digits := Digits(n);
    if |digits| >= width then digits else Zeros(width - |digits|) + digits
  }

  predicate IsNumeral(s: string) { forall i :: 0 <= i < |s| ==> '0' <= s[i] <= '9' }

  ghost function Value(s: string): int {
    if s == "" then 0 else 10 * Value(s[..|s| - 1]) + (s[|s| - 1] as int - '0' as int)
  }

  lemma {:induction false} DigitsHaveValue(n: nat)
    ensures Value(Digits(n)) == n && IsNumeral(Digits(n))
  {
    if n < 10 {
      assert Digits(n)[..0] == "";
    } else {
      DigitsHaveValue(n / 10);
      assert Digits(n)[..|Digits(n)| - 1] == Digits(n / 10);
    }
  }

  lemma {:induction false} ZerosAddNothing(k: nat, s: string)
    requires IsNumeral(s)
    ensures Value(Zeros(k) + s) == Value(s) && IsNumeral(Zeros(k) + s)
    decreases k, |s|
  {
    var all := Zeros(k) + s;
    if s != "" {
      ZerosAddNothing(k, s[..|s| - 1]);
      assert all[..|all| - 1] == Zeros(k) + s[..|s| - 1];
      forall i | 0 <= i < |all| ensures '0' <= all[i] <= '9' {
        if i < |all| - 1 { assert all[i] == all[..|all| - 1][i]; }
      }
    } else if k > 0 {
      ZerosAddNothing(k - 1, "0");
      ZerosShift(k - 1);
      assert all == Zeros(k - 1) + "0";
      assert Value("0") == 0 by { assert "0"[..0] == ""; }
    }
  }

  lemma {:induction false} ZerosShift(k: nat)
    ensures Zeros(k) + "0" == Zeros(k + 1)
  {
    if k > 0 {
      ZerosShift(k - 1);
      assert Zeros(k) + "0" == "0" + (Zeros(k - 1) + "0");
    }
  }

  lemma PaddedHasValue(n: nat, width: nat)
    ensures Value(Padded(n, width)) == n && IsNumeral(Padded(n, width))
  {
    DigitsHaveValue(n);
    if |Digits(n)| < width { ZerosAddNothing(width - |Digits(n)|, Digits(n)); }
  }

  // ------------------------------------------------------------------ the IDs

  /** `planned_sample_id` */
  function SampleId(scenario: string, condition: string, implementation: Implementation, ordinal: nat): string {
    scenario + "--" + condition + "--" + ImplementationName(implementation) + "--" + Padded(ordinal, 3)
  }

  /** The launch group ID. */
  function GroupId(condition: string, number: nat): string {
    condition + "-" + Padded(number, 4)
  }

  predicate NoDash(s: string) { forall i :: 0 <= i < |s| ==> s[i] != '-' }

  /** Text before and after the last dash is determined. */
  lemma SplitAtLastDash(a: string, x: string, b: string, y: string)
    requires a + "-" + x == b + "-" + y && NoDash(x) && NoDash(y)
    ensures a == b && x == y
  {
    var s, t := a + "-" + x, b + "-" + y;
    assert s[|a|] == '-' && t[|b|] == '-';
    assert |a| == |b|;
    assert a == s[..|a|] && b == t[..|b|];
    assert x == s[|a| + 1..] && y == t[|b| + 1..];
  }

  /** The four condition names differ ten characters before their end, so none ends another. */
  lemma ConditionsAreSuffixFree(a: string, c: string, b: string, d: string)
    requires IsCondition(c) && IsCondition(d) && a + c == b + d
    ensures c == d && a == b
  {
    var s := a + c;
    assert s[|s| - 10] == c[|c| - 10];
    assert (b + d)[|s| - 10] == d[|d| - 10];
    assert c == d;
    assert a == s[..|s| - |c|] && b == (b + d)[..|s| - |d|];
  }

  /** Equal group IDs name the same group number. */
  lemma GroupIdsAreInjective(c: string, m: nat, d: string, n: nat)
    requires GroupId(c, m) == GroupId(d, n)
    ensures c == d && m == n
  {
    PaddedHasValue(m, 4);
    PaddedHasValue(n, 4);
    SplitAtLastDash(c, Padded(m, 4), d, Padded(n, 4));
  }

  lemma PeelTail(a: string, x: string, b: string, y: string)
    requires a + "--" + x == b + "--" + y && NoDash(x) && NoDash(y)
    ensures a == b && x == y
  {
    assert (a + "-") + "-" + x == a + "--" + x;
    assert (b + "-") + "-" + y == b + "--" + y;
    SplitAtLastDash(a + "-", x, b + "-", y);
    assert a == (a + "-")[..|a|] && b == (b + "-")[..|b|];
  }

  /** Equal sample IDs plan the same sample, whatever the scenario names contain. */
  lemma SampleIdsAreInjective(s: string, c: string, i: Implementation, m: nat,
                              t: string, d: string, j: Implementation, n: nat)
    requires IsCondition(c) && IsCondition(d) && SampleId(s, c, i, m) == SampleId(t, d, j, n)
    ensures s == t && c == d && i == j && m == n
  {
    PaddedHasValue(m, 3);
    PaddedHasValue(n, 3);
    PeelImplementation(s + "--" + c, i, Padded(m, 3), t + "--" + d, j, Padded(n, 3));
    ConditionsAreSuffixFree(s + "--", c, t + "--", d);
    assert s == (s + "--")[..|s|] && t == (t + "--")[..|t|];
  }

  lemma PeelImplementation(a: string, i: Implementation, x: string, b: string, j: Implementation, y: string)
    requires a + "--" + ImplementationName(i) + "--" + x == b + "--" + ImplementationName(j) + "--" + y
    requires NoDash(x) && NoDash(y)
    ensures a == b && i == j && x == y
  {
    PeelTail(a + "--" + ImplementationName(i), x, b + "--" + ImplementationName(j), y);
    PeelTail(a, ImplementationName(i), b, ImplementationName(j));
  }

  // ---------------------------------------------------------------- safe IDs

  predicate IsAlphanumeric(c: char) { 'A' <= c <= 'Z' || 'a' <= c <= 'z' || '0' <= c <= '9' }

  predicate IsIdChar(c: char) { IsAlphanumeric(c) || c == '.' || c == '_' || c == ':' || c == '-' }

  predicate IdChars(s: string) { forall i :: 0 <= i < |s| ==> IsIdChar(s[i]) }

  /** `SAFE_ID` */
  predicate IsSafeId(s: string) { 0 < |s| <= 128 && IsAlphanumeric(s[0]) && IdChars(s) }

  lemma ConditionsAreSafe(name: string)
    requires IsCondition(name)
    ensures IsSafeId(name)
  {
  }

  lemma JoinedIdChars(a: string, separator: string, b: string)
    requires IdChars(a) && IdChars(separator) && IdChars(b)
    ensures IdChars(a + separator + b)
  {
  }

  /** A planned sample ID is well formed exactly when it fits in 128 characters. */
  lemma SampleIdIsSafeIffShort(scenario: string, condition: string, i: Implementation, ordinal: nat)
    requires IsSafeId(scenario) && IsCondition(condition)
    ensures IsSafeId(SampleId(scenario, condition, i, ordinal)) <==> |SampleId(scenario, condition, i, ordinal)| <= 128
  {
    ConditionsAreSafe(condition);
    PaddedHasValue(ordinal, 3);
    var name, digits := ImplementationName(i), Padded(ordinal, 3);
    JoinedIdChars(scenario, "--", condition);
    JoinedIdChars(scenario + "--" + condition, "--", name);
    JoinedIdChars(scenario + "--" + condition + "--" + name, "--", digits);
    assert SampleId(scenario, condition, i, ordinal)[0] == scenario[0];
  }

  lemma GroupIdIsSafeIffShort(condition: string, number: nat)
    requires IsCondition(condition)
    ensures IsSafeId(GroupId(condition, number)) <==> |GroupId(condition, number)| <= 128
  {
    ConditionsAreSafe(condition);
    PaddedHasValue(number, 4);
    JoinedIdChars(condition, "-", Padded(number, 4));
    assert GroupId(condition, number)[0] == condition[0];
  }
}
