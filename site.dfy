/** Reading Scratch project ids and usernames out of what a user types:
    either the bare value or a link to one of the known sites, and the
    Markdown links the bot prints back. Strings are sequences of Unicode
    scalar values; the username length limit counts UTF-8 bytes. */
module ScratchSite {
  import opened Wrappers

  // ---------------------------------------------------------------------
  // Decimal numerals.

  const I64Min: int := -0x8000_0000_0000_0000
  const I64Max: int := 0x7FFF_FFFF_FFFF_FFFF

  /** Fits a signed 64-bit integer. */
  predicate InI64(x: int) {
    I64Min <= x <= I64Max
  }

  predicate IsDigit(c: char) {
    '0' <= c <= '9'
  }

  predicate AllDigits(s: string) {
    forall i :: 0 <= i < |s| ==> IsDigit(s[i])
  }

  function DigitValue(c: char): nat
    requires IsDigit(c)
  {
    c as int - '0' as int
  }

  function DigitChar(d: nat): char
    requires d < 10
  {
    ('0' as int + d) as char
  }

  /** The value of digits read left to right after an already read `acc`. */
  function Fold(acc: nat, digits: string): nat
    requires AllDigits(digits)
    decreases |digits|
  {
    if |digits| == 0 then acc else Fold(acc * 10 + DigitValue(digits[0]), digits[1..])
  }

  /** The value of a non-empty digit string. */
  function DigitsValue(digits: string): nat
    requires AllDigits(digits)
  {
    Fold(0, digits)
  }

  /** A numeral as integer parsing accepts it: an optional sign, then at
      least one digit. */
  predicate Numeral(s: string) {
    if |s| > 0 && (s[0] == '+' || s[0] == '-') then |s| > 1 && AllDigits(s[1..])
    else |s| > 0 && AllDigits(s)
  }

  /** The integer a numeral denotes. */
  function NumeralValue(s: string): int
    requires Numeral(s)
  {
    if s[0] == '-' then -(DigitsValue(s[1..]) as int)
    else if s[0] == '+' then DigitsValue(s[1..])
    else DigitsValue(s)
  }

  /** The digits of `n`, no leading zeros. */
  function NatToString(n: nat): (s: string)
    ensures |s| > 0 && AllDigits(s)
    ensures s[0] == '0' ==> n == 0
  {
    if n < 10 then [DigitChar(n)] else NatToString(n / 10) + [DigitChar(n % 10)]
  }

  /** An integer as it is displayed: its digits, after `-` if negative. */
  function IntToString(i: int): (s: string)
    ensures Numeral(s) && NumeralValue(s) == i
    ensures s[0] == '-' <==> i < 0
    ensures s[0] != '+'
  {
    if i < 0 then
      NatToStringValue(-i);
      assert ("-" + NatToString(-i))[1..] == NatToString(-i);
      "-" + NatToString(-i)
    else
      NatToStringValue(i);
      NatToString(i)
  }

  /** Integer parsing's digit loop: each step multiplies by ten and adds
      (or, for a negative number, subtracts) the next digit, failing on a
      non-digit or as soon as either operation leaves the 64-bit range. */
  function Accumulate(digits: string, negative: bool, acc: int): Option<int>
    requires if negative then acc <= 0 else acc >= 0
  {
    if |digits| == 0 then Some(acc)
    else if !IsDigit(digits[0]) then None
    else
      var scaled := acc * 10;
      if !InI64(scaled) then None
      else
        var next := if negative then scaled - DigitValue(digits[0]) else scaled + DigitValue(digits[0]);
        if !InI64(next) then None
        else Accumulate(digits[1..], negative, next)
  }

  /** `str::parse::<i64>`: an empty string, a lone sign, a non-digit or a
      value outside the 64-bit range does not parse. */
  function ParseI64(s: string): (r: Option<int>)
    ensures r.Some? <==> Numeral(s) && InI64(NumeralValue(s))
    ensures r.Some? ==> r.value == NumeralValue(s)
  {
    if |s| == 0 then None
    else if s[0] == '+' || s[0] == '-' then
      if |s| == 1 then None
      else
        AccumulateMeansValue(s[1..], s[0] == '-', 0);
        Accumulate(s[1..], s[0] == '-', 0)
    else
      AccumulateMeansValue(s, false, 0);
      Accumulate(s, false, 0)
  }

  lemma {:induction false} FoldAtLeast(acc: nat, digits: string)
    requires AllDigits(digits)
    ensures Fold(acc, digits) >= acc
    decreases |digits|
  {
    if |digits| > 0 {
      FoldAtLeast(acc * 10 + DigitValue(digits[0]), digits[1..]);
    }
  }

  lemma {:induction false} FoldSnoc(acc: nat, digits: string, c: char)
    requires AllDigits(digits) && IsDigit(c)
    ensures AllDigits(digits + [c])
    ensures Fold(acc, digits + [c]) == Fold(acc, digits) * 10 + DigitValue(c)
    decreases |digits|
  {
    if |digits| > 0 {
      assert (digits + [c])[1..] == digits[1..] + [c];
      FoldSnoc(acc * 10 + DigitValue(digits[0]), digits[1..], c);
    }
  }

  /** The digit loop computes the numeral's value when that value fits, and
      fails exactly when a digit is missing or the value does not fit. */
  lemma {:induction false} AccumulateMeansValue(digits: string, negative: bool, acc: int)
    requires if negative then acc <= 0 else acc >= 0
    requires InI64(acc)
    ensures var magnitude := if negative then -acc else acc;
      var value: int := if AllDigits(digits) then (if negative then -(Fold(magnitude, digits) as int) else Fold(magnitude, digits)) else 0;
      Accumulate(digits, negative, acc) == if AllDigits(digits) && InI64(value) then Some(value) else None
    decreases |digits|
  {
    var magnitude := if negative then -acc else acc;
    if |digits| > 0 && IsDigit(digits[0]) {
      var grown := magnitude * 10 + DigitValue(digits[0]);
      if AllDigits(digits) {
        assert AllDigits(digits[1..]);
        FoldAtLeast(grown, digits[1..]);
      }
      var next := if negative then -grown else grown;
      if InI64(acc * 10) && InI64(next) {
        AccumulateMeansValue(digits[1..], negative, next);
      }
    }
  }

  /** The digits of `n` read back give `n`. */
  lemma {:induction false} NatToStringValue(n: nat)
    ensures DigitsValue(NatToString(n)) == n
  {
    if n >= 10 {
      NatToStringValue(n / 10);
      FoldSnoc(0, NatToString(n / 10), DigitChar(n % 10));
      assert DigitValue(DigitChar(n % 10)) == n % 10;
    } else {
      FoldSnoc(0, "", DigitChar(n));
      assert "" + [DigitChar(n)] == NatToString(n);
    }
  }

  /** Displaying a 64-bit integer and parsing it back gives the integer. */
  lemma ParseDisplayedInteger(i: int)
    requires InI64(i)
    ensures ParseI64(IntToString(i)) == Some(i)
  {
    if i < 0 {
      NatToStringValue(-i);
      assert ("-" + NatToString(-i))[1..] == NatToString(-i);
    } else {
      NatToStringValue(i);
    }
  }

  /** Displayed integers outside the 64-bit range do not parse. */
  lemma ParseRejectsOutOfRange(i: int)
    requires !InI64(i)
    ensures ParseI64(IntToString(i)) == None
  {
    if i < 0 {
      NatToStringValue(-i);
      assert ("-" + NatToString(-i))[1..] == NatToString(-i);
    } else {
      NatToStringValue(i);
    }
  }

  /** Malformed text does not parse: nothing, a lone sign, a stray
      character; a plus sign and leading zeros are accepted. */
  lemma ParseEdgeCases()
    ensures ParseI64("") == None && ParseI64("-") == None && ParseI64("+") == None
    ensures ParseI64("12a") == None && ParseI64(" 1") == None
    ensures ParseI64("+7") == Some(7) && ParseI64("007") == Some(7)
  {
    assert !AllDigits("12a") by { assert !IsDigit("12a"[2]); }
    assert "+7"[1..] == "7";
  }

  // ---------------------------------------------------------------------
  // Links.

  /** The project page of `id` on the Scratch website. */
  function ProjectUrl(id: int): string {
    "https://scratch.mit.edu/projects/" + IntToString(id)
  }

  /** The profile page of `username` on the Scratch website. */
  function UserUrl(username: string): string {
    "https://scratch.mit.edu/users/" + username
  }

  /** `project_link`: the id as Markdown link text to its project page;
      for a 64-bit id, the text and the target both lead back to it. */
  function ProjectLink(id: int): (r: string)
    ensures r == "[" + IntToString(id) + "](" + ProjectUrl(id) + ")"
    ensures InI64(id) ==> ExtractProjectId(IntToString(id)) == Some(id) && ExtractProjectId(ProjectUrl(id)) == Some(id)
  {
    if InI64(id) then
      ExtractProjectIdFromLink(0, id, "");
      assert ProjectPaths[0] + IntToString(id) + "" == ProjectUrl(id);
      ExtractDisplayedId(id);
      "[" + IntToString(id) + "](" + ProjectUrl(id) + ")"
    else
      "[" + IntToString(id) + "](" + ProjectUrl(id) + ")"
  }

  /** `user_link`: the username as Markdown link text to its profile page;
      for a valid username, the text and the target both lead back to it. */
  function UserLink(username: string): (r: string)
    ensures r == "[" + username + "](" + UserUrl(username) + ")"
    ensures UsernameIsValid(username) ==>
      ExtractUsername(username) == Some(username) && ExtractUsername(UserUrl(username)) == Some(username)
  {
    if UsernameIsValid(username) then
      ExtractUsernameFromLink(0, username, "");
      assert UserPaths[0] + username + "" == UserUrl(username);
      ExtractBareUsername(username);
      "[" + username + "](" + UserUrl(username) + ")"
    else
      "[" + username + "](" + UserUrl(username) + ")"
  }

  // ---------------------------------------------------------------------
  // Extraction.

  const ProjectPaths: seq<string> := [
    "https://scratch.mit.edu/projects/",
    "https://api.scratch.mit.edu/projects/",
    "https://scratchdb.lefty.one/v3/project/info/"
  ]

  const UserPaths: seq<string> := [
    "https://scratch.mit.edu/users/",
    "https://api.scratch.mit.edu/users/",
    "https://scratchdb.lefty.one/v3/user/info/",
    "https://scratchstats.com/"
  ]

  /** A character that ends the interesting part of a link. */
  predicate IsDelimiter(c: char) {
    c == '/' || c == '?' || c == '#'
  }

  /** The remainder after the first of `paths`, in order, that `value`
      starts with. */
  function StripFirstPrefix(value: string, paths: seq<string>): (r: Option<string>)
    ensures r.None? <==> forall i :: 0 <= i < |paths| ==> !(paths[i] <= value)
    ensures r.Some? ==> exists i :: (0 <= i < |paths| && paths[i] <= value && r.value == value[|paths[i]|..]
      && (forall j :: 0 <= j < i ==> !(paths[j] <= value)))
  {
    if |paths| == 0 then None
    else if paths[0] <= value then Some(value[|paths[0]|..])
    else StripFirstPrefix(value, paths[1..])
  }

  /** The longest prefix without a delimiter. */
  function CutAtDelimiter(v: string): (r: string)
    ensures r <= v
    ensures forall i :: 0 <= i < |r| ==> !IsDelimiter(r[i])
    ensures |r| < |v| ==> IsDelimiter(v[|r|])
  {
    if |v| == 0 || IsDelimiter(v[0]) then "" else [v[0]] + CutAtDelimiter(v[1..])
  }

  /** `extract`: after the first matching path, the text up to the first
      delimiter; the whole value when no path matches. */
  function Extract(value: string, paths: seq<string>): (r: string)
    ensures StripFirstPrefix(value, paths).None? ==> r == value
    ensures StripFirstPrefix(value, paths).Some? ==>
      var rest := StripFirstPrefix(value, paths).value;
      && r <= rest
      && (forall i :: 0 <= i < |r| ==> !IsDelimiter(r[i]))
      && (|r| < |rest| ==> IsDelimiter(rest[|r|]))
  {
    match StripFirstPrefix(value, paths)
    case None => value
    case Some(rest) => CutAtDelimiter(rest)
  }

  /** `extract_project_id`. */
  function ExtractProjectId(value: string): (r: Option<int>)
    ensures r.Some? <==> Numeral(Extract(value, ProjectPaths)) && InI64(NumeralValue(Extract(value, ProjectPaths)))
    ensures r.Some? ==> r.value == NumeralValue(Extract(value, ProjectPaths))
  {
    ParseI64(Extract(value, ProjectPaths))
  }

  // ---------------------------------------------------------------------
  // Usernames.

  /** The number of bytes a character takes in UTF-8. */
  function Utf8Width(c: char): nat {
    if c as int < 0x80 then 1 else if c as int < 0x800 then 2 else if c as int < 0x10000 then 3 else 4
  }

  /** The length of a string in UTF-8 bytes. */
  function Utf8Len(s: string): nat {
    if |s| == 0 then 0 else Utf8Len(s[..|s| - 1]) + Utf8Width(s[|s| - 1])
  }

  predicate IsUsernameChar(c: char) {
    ('a' <= c <= 'z') || ('A' <= c <= 'Z') || ('0' <= c <= '9') || c == '-' || c == '_'
  }

  /** `username_is_valid`: at most 20 bytes, each character an ASCII letter
      or digit, `-` or `_`. */
  predicate UsernameIsValid(username: string)
    ensures UsernameIsValid(username) ==> |username| <= 20 && forall i :: 0 <= i < |username| ==> username[i] as int < 0x80
  {
    Utf8LenAtLeastLength(username);
    Utf8Len(username) <= 20 && forall i :: 0 <= i < |username| ==> IsUsernameChar(username[i])
  }

  /** `extract_username`: the extracted text, if it is a valid username. */
  function ExtractUsername(value: string): (r: Option<string>)
    ensures r.Some? <==> UsernameIsValid(Extract(value, UserPaths))
    ensures r.Some? ==> r.value == Extract(value, UserPaths)
  {
    var username := Extract(value, UserPaths);
    if UsernameIsValid(username) then Some(username) else None
  }

  lemma {:induction false} Utf8LenOfAscii(s: string)
    requires forall i :: 0 <= i < |s| ==> s[i] as int < 0x80
    ensures Utf8Len(s) == |s|
  {
    if |s| > 0 {
      Utf8LenOfAscii(s[..|s| - 1]);
    }
  }

  lemma {:induction false} Utf8LenAtLeastLength(s: string)
    ensures Utf8Len(s) >= |s|
  {
    if |s| > 0 {
      Utf8LenAtLeastLength(s[..|s| - 1]);
    }
  }

  /** A username is valid exactly when it has at most 20 characters, each
      an ASCII letter or digit, `-` or `_` (such characters are one byte each). */
  lemma UsernameIsValidIff(username: string)
    ensures UsernameIsValid(username) <==>
      |username| <= 20 && forall i :: 0 <= i < |username| ==> IsUsernameChar(username[i])
  {
    Utf8LenAtLeastLength(username);
    if forall i :: 0 <= i < |username| ==> IsUsernameChar(username[i]) {
      Utf8LenOfAscii(username);
    }
  }

  /** The username validation test cases. */
  lemma UsernameValidationCases()
    ensures UsernameIsValid("PMJ_Studio")
    ensures UsernameIsValid("12345678901234567890")
    ensures UsernameIsValid("qwertyuiopasdfghjklz")
    ensures UsernameIsValid("-_")
    ensures !UsernameIsValid("Ä…")
    ensures !UsernameIsValid(";")
    ensures !UsernameIsValid("123456789012345678901")
  {
    UsernameIsValidIff("PMJ_Studio");
    UsernameIsValidIff("12345678901234567890");
    UsernameIsValidIff("qwertyuiopasdfghjklz");
    UsernameIsValidIff("-_");
    assert !IsUsernameChar("Ä…"[0]);
    assert !IsUsernameChar(";"[0]);
    UsernameIsValidIff("123456789012345678901");
  }

  // ---------------------------------------------------------------------
  // Extraction properties.

  /** A value starting with none of the paths is returned whole. */
  lemma ExtractPassesThrough(value: string, paths: seq<string>)
    requires forall i :: 0 <= i < |paths| ==> !(paths[i] <= value)
    ensures Extract(value, paths) == value
  {
  }

  /** What follows the interesting part in the links the tests use:
      nothing, or text starting with a delimiter. */
  predicate IsLinkSuffix(suffix: string) {
    |suffix| == 0 || IsDelimiter(suffix[0])
  }

  lemma NotPrefixWhereDiffering(p: string, q: string, rest: string, k: nat)
    requires k < |p| && k < |q| && p[k] != q[k]
    ensures !(p <= q + rest)
  {
    assert (q + rest)[k] == q[k];
  }

  /** A path, then text without delimiters, then a link suffix: when no
      earlier path is a prefix of the value, the text is what is extracted. */
  lemma ExtractAfterPath(paths: seq<string>, i: nat, text: string, suffix: string)
    requires i < |paths|
    requires forall j :: 0 <= j < i ==> !(paths[j] <= paths[i] + text + suffix)
    requires forall k :: 0 <= k < |text| ==> !IsDelimiter(text[k])
    requires IsLinkSuffix(suffix)
    ensures Extract(paths[i] + text + suffix, paths) == text
  {
    var value := paths[i] + text + suffix;
    assert paths[i] <= value;
    var rest := StripFirstPrefix(value, paths);
    assert rest == Some(text + suffix) by {
      var m :| 0 <= m < |paths| && paths[m] <= value && rest.value == value[|paths[m]|..]
        && (forall j :: 0 <= j < m ==> !(paths[j] <= value));
      assert m == i;
      assert value[|paths[i]|..] == text + suffix;
    }
    CutBeforeSuffix(text, suffix);
  }

  /** Text without delimiters followed by a link suffix is cut exactly at
      the end of the text. */
  lemma {:induction false} CutBeforeSuffix(text: string, suffix: string)
    requires forall k :: 0 <= k < |text| ==> !IsDelimiter(text[k])
    requires IsLinkSuffix(suffix)
    ensures CutAtDelimiter(text + suffix) == text
  {
    if |text| > 0 {
      assert (text + suffix)[0] == text[0];
      assert (text + suffix)[1..] == text[1..] + suffix;
      CutBeforeSuffix(text[1..], suffix);
    }
  }

  /** No project path is a prefix of a link built on a later one. */
  lemma ProjectPathsDistinct(i: nat, rest: string)
    requires i < |ProjectPaths|
    ensures forall j :: 0 <= j < i ==> !(ProjectPaths[j] <= ProjectPaths[i] + rest)
  {
    if i == 1 {
      NotPrefixWhereDiffering(ProjectPaths[0], ProjectPaths[1], rest, 8);
    } else if i == 2 {
      NotPrefixWhereDiffering(ProjectPaths[0], ProjectPaths[2], rest, 15);
      NotPrefixWhereDiffering(ProjectPaths[1], ProjectPaths[2], rest, 8);
    }
  }

  /** No user path is a prefix of a link built on a later one. */
  lemma UserPathsDistinct(i: nat, rest: string)
    requires i < |UserPaths|
    ensures forall j :: 0 <= j < i ==> !(UserPaths[j] <= UserPaths[i] + rest)
  {
    if i == 1 {
      NotPrefixWhereDiffering(UserPaths[0], UserPaths[1], rest, 8);
    } else if i == 2 {
      NotPrefixWhereDiffering(UserPaths[0], UserPaths[2], rest, 15);
      NotPrefixWhereDiffering(UserPaths[1], UserPaths[2], rest, 8);
    } else if i == 3 {
      NotPrefixWhereDiffering(UserPaths[0], UserPaths[3], rest, 15);
      NotPrefixWhereDiffering(UserPaths[1], UserPaths[3], rest, 8);
      NotPrefixWhereDiffering(UserPaths[2], UserPaths[3], rest, 15);
    }
  }

  /** Every 64-bit id is extracted from a link to it on any of the known
      project sites, whatever sub-path, query or fragment follows. */
  lemma ExtractProjectIdFromLink(i: nat, id: int, suffix: string)
    requires i < |ProjectPaths| && InI64(id) && IsLinkSuffix(suffix)
    ensures ExtractProjectId(ProjectPaths[i] + IntToString(id) + suffix) == Some(id)
  {
    var text := IntToString(id);
    assert forall k :: 0 <= k < |text| ==> !IsDelimiter(text[k]) by {
      if id < 0 {
        assert forall k :: 1 <= k < |text| ==> text[k] == NatToString(-id)[k - 1];
      }
    }
    assert ProjectPaths[i] + text + suffix == ProjectPaths[i] + (text + suffix);
    ProjectPathsDistinct(i, text + suffix);
    ExtractAfterPath(ProjectPaths, i, text, suffix);
    ParseDisplayedInteger(id);
  }

  /** Every valid username is extracted from a link to it on any of the
      known user sites, whatever sub-path, query or fragment follows. */
  lemma ExtractUsernameFromLink(i: nat, username: string, suffix: string)
    requires i < |UserPaths| && UsernameIsValid(username) && IsLinkSuffix(suffix)
    ensures ExtractUsername(UserPaths[i] + username + suffix) == Some(username)
  {
    assert UserPaths[i] + username + suffix == UserPaths[i] + (username + suffix);
    UserPathsDistinct(i, username + suffix);
    ExtractAfterPath(UserPaths, i, username, suffix);
  }

  /** The suffixes of the extraction tests: a sub-path, then a query, then
      a fragment, each possibly empty. */
  lemma TestSuffixIsLinkSuffix(subpath: string, query: string, hash: string)
    requires subpath in ["", "/", "/foo/bar"]
    requires query in ["", "?foo=bar&bar=foo"]
    requires hash in ["", "#hash"]
    ensures IsLinkSuffix(subpath + query + hash)
  {
    if subpath != "" {
      assert (subpath + query + hash)[0] == subpath[0];
    } else if query != "" {
      assert (subpath + query + hash)[0] == query[0];
    } else if hash != "" {
      assert (subpath + query + hash)[0] == hash[0];
    }
  }

  /** Every known path has a colon at index 5 (after `https`). */
  lemma ColonInEveryPath()
    ensures forall i :: 0 <= i < |ProjectPaths| ==> |ProjectPaths[i]| > 5 && ProjectPaths[i][5] == ':'
    ensures forall i :: 0 <= i < |UserPaths| ==> |UserPaths[i]| > 5 && UserPaths[i][5] == ':'
  {
  }

  /** A value without a colon starts with none of the paths. */
  lemma {:induction false} NoColonNoPath(paths: seq<string>, value: string)
    requires forall i :: 0 <= i < |paths| ==> |paths[i]| > 5 && paths[i][5] == ':'
    requires forall k :: 0 <= k < |value| ==> value[k] != ':'
    ensures forall i :: 0 <= i < |paths| ==> !(paths[i] <= value)
  {
    forall i | 0 <= i < |paths|
      ensures !(paths[i] <= value)
    {
      if |paths[i]| <= |value| {
        assert value[5] != paths[i][5];
      }
    }
  }

  /** A displayed integer is taken as it is: it parses back to the id. */
  lemma ExtractDisplayedId(id: int)
    requires InI64(id)
    ensures ExtractProjectId(IntToString(id)) == Some(id)
  {
    var text := IntToString(id);
    assert forall k :: 0 <= k < |text| ==> text[k] != ':' by {
      if id < 0 {
        assert forall k :: 1 <= k < |text| ==> text[k] == NatToString(-id)[k - 1];
      }
    }
    ColonInEveryPath();
    NoColonNoPath(ProjectPaths, text);
    ExtractPassesThrough(text, ProjectPaths);
    ParseDisplayedInteger(id);
  }

  /** A valid username is taken as it is. */
  lemma ExtractBareUsername(username: string)
    requires UsernameIsValid(username)
    ensures ExtractUsername(username) == Some(username)
  {
    ColonInEveryPath();
    NoColonNoPath(UserPaths, username);
    ExtractPassesThrough(username, UserPaths);
  }

  /** The project id extraction tests: the id 499038694 after any known
      path, followed by any combination of the sub-paths, queries
      and fragments. */
  lemma ProjectIdTestCase(i: nat, subpath: string, query: string, hash: string)
    requires i < |ProjectPaths|
    requires subpath in ["", "/", "/foo/bar"]
    requires query in ["", "?foo=bar&bar=foo"]
    requires hash in ["", "#hash"]
    ensures ExtractProjectId(ProjectPaths[i] + IntToString(499038694) + (subpath + query + hash)) == Some(499038694)
  {
    TestSuffixIsLinkSuffix(subpath, query, hash);
    ExtractProjectIdFromLink(i, 499038694, subpath + query + hash);
  }

  /** The username extraction tests: `PMJ_Studio` after any known path,
      followed by any combination of the sub-paths, queries and
      fragments. */
  lemma UsernameTestCase(i: nat, subpath: string, query: string, hash: string)
    requires i < |UserPaths|
    requires subpath in ["", "/", "/foo/bar"]
    requires query in ["", "?foo=bar&bar=foo"]
    requires hash in ["", "#hash"]
    ensures ExtractUsername(UserPaths[i] + "PMJ_Studio" + (subpath + query + hash)) == Some("PMJ_Studio")
  {
    TestSuffixIsLinkSuffix(subpath, query, hash);
    UsernameValidationCases();
    ExtractUsernameFromLink(i, "PMJ_Studio", subpath + query + hash);
  }

  /** The passthrough tests: a bare id or username is taken as it is. */
  lemma PassthroughCases()
    ensures ExtractProjectId(IntToString(499038694)) == Some(499038694)
    ensures ExtractUsername("PMJ_Studio") == Some("PMJ_Studio")
  {
    ExtractDisplayedId(499038694);
    UsernameValidationCases();
    ExtractBareUsername("PMJ_Studio");
  }

  /** A link with nothing between the path and the suffix yields no id. */
  lemma EmptyIdDoesNotParse(i: nat, suffix: string)
    requires i < |ProjectPaths| && IsLinkSuffix(suffix)
    ensures ExtractProjectId(ProjectPaths[i] + suffix) == None
  {
    assert ProjectPaths[i] + suffix == ProjectPaths[i] + "" + suffix;
    ProjectPathsDistinct(i, suffix);
    ExtractAfterPath(ProjectPaths, i, "", suffix);
  }
}
