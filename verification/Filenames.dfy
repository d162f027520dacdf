/** The names of the files of a rotating sink. */
module Filenames {

  /** `rfind` and, for one character, `find_last_of`: -1 for `npos`. */
  function LastIndexOf(s: string, c: char): (k: int)
    ensures -1 <= k < |s|
    ensures k >= 0 ==> s[k] == c
    ensures forall j :: k < j < |s| ==> s[j] != c
  {
    if s == "" then -1
    else if s[|s| - 1] == c then |s| - 1
    else LastIndexOf(s[..|s| - 1], c)
  }

  /** Whether the path has an extension, and it starts at `k`: a dot that is neither the first
      nor the last character of the last part of the path, and the last dot in it. */
  predicate IsExtension(path: string, k: int) {
    && 0 < k < |path| - 1 && path[k] == '.' && path[k - 1] != '/'
    && forall j :: k < j < |path| ==> path[j] != '.' && path[j] != '/'
  }

  /** `file_helper::split_by_extension`. */
  function SplitByExtension(path: string): (r: (string, string))
    ensures r.0 + r.1 == path
  {
    var ext := LastIndexOf(path, '.');
    if ext == -1 || ext == 0 || ext == |path| - 1 then (path, "")
    else
      var folder := LastIndexOf(path, '/');
      if folder != -1 && folder >= ext - 1 then (path, "")
      else (path[..ext], path[ext..])
  }

  /** The split is at the extension, if there is one. */
  lemma SplitsAtExtension(path: string, k: int)
    ensures IsExtension(path, k) ==> SplitByExtension(path) == (path[..k], path[k..])
    ensures SplitByExtension(path).1 != "" <==> IsExtension(path, |SplitByExtension(path).0|)
  {
    var ext, folder := LastIndexOf(path, '.'), LastIndexOf(path, '/');
    if IsExtension(path, k) {
      assert ext == k;
      assert folder < k - 1;
    }
    if 0 < ext < |path| - 1 {
      assert folder < ext - 1 <==> IsExtension(path, ext);
    }
  }

  function Digit(d: nat): char
    requires d < 10
  {
    "0123456789"[d]
  }

  function Decimal(n: nat): (s: string)
    ensures |s| > 0
  {
    if n < 10 then [Digit(n)] else Decimal(n / 10) + [Digit(n % 10)]
  }

  /** The number that digits stand for. */
  function Value(s: string): int {
    if s == "" then 0 else 10 * Value(s[..|s| - 1]) + (s[|s| - 1] as int - '0' as int)
  }

  /** A number is written in decimal digits, without leading zeros. */
  lemma {:induction false} DecimalValue(n: nat)
    ensures var s := Decimal(n);
            && Value(s) == n && (forall i :: 0 <= i < |s| ==> '0' <= s[i] <= '9') && (n > 0 ==> s[0] != '0')
  {
    if n >= 10 {
      DecimalValue(n / 10);
      assert Decimal(n)[..|Decimal(n)| - 1] == Decimal(n / 10);
    }
  }

  /** The last digit and what is before it. */
  lemma DecimalEnds(n: nat)
    ensures var s := Decimal(n);
            && s[|s| - 1] == Digit(n % 10) && (|s| == 1 <==> n < 10)
            && (n >= 10 ==> s[..|s| - 1] == Decimal(n / 10))
  {
  }

  lemma DigitInjective(d: nat, e: nat)
    requires d < 10 && e < 10 && Digit(d) == Digit(e)
    ensures d == e
  {
  }

  lemma {:induction false} DecimalInjective(m: nat, n: nat)
    requires Decimal(m) == Decimal(n)
    ensures m == n
    decreases m
  {
    hide Decimal, Digit;
    DecimalEnds(m);
    DecimalEnds(n);
    DigitInjective(m % 10, n % 10);
    if m >= 10 {
      DecimalInjective(m / 10, n / 10);
    }
  }

  /** `calc_filename`. */
  function CalcFilename(path: string, index: nat): string {
    if index == 0 then path
    else
      var (base, ext) := SplitByExtension(path);
      base + "." + Decimal(index) + ext
  }

  /** File 0 has the name itself; all others have their index, between dots, before the
      extension, or at the end if there is none. */
  lemma IndexBeforeExtension(path: string, index: nat, k: int)
    ensures index == 0 ==> CalcFilename(path, index) == path
    ensures index > 0 && IsExtension(path, k) ==>
              CalcFilename(path, index) == path[..k] + "." + Decimal(index) + path[k..]
    ensures index > 0 && (forall j :: !IsExtension(path, j)) ==>
              CalcFilename(path, index) == path + "." + Decimal(index)
  {
    SplitsAtExtension(path, k);
    var (base, ext) := SplitByExtension(path);
    if ext == "" {
      assert base + ext == base == path;
      assert base + "." + Decimal(index) + ext == path + "." + Decimal(index);
    }
  }

  /** Different indices give different files. */
  lemma CalcFilenameInjective(path: string, i: nat, j: nat)
    requires CalcFilename(path, i) == CalcFilename(path, j)
    ensures i == j
  {
    var (base, ext) := SplitByExtension(path);
    assert i > 0 ==> |CalcFilename(path, i)| > |base + ext|;
    assert j > 0 ==> |CalcFilename(path, j)| > |base + ext|;
    if i > 0 && j > 0 {
      var s, t := base + "." + Decimal(i) + ext, base + "." + Decimal(j) + ext;
      assert s[|base| + 1..|s| - |ext|] == Decimal(i);
      assert t[|base| + 1..|t| - |ext|] == Decimal(j);
      DecimalInjective(i, j);
    }
  }
}
