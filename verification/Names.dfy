/** How a model name is read and compared: trimming, case folding, the reserved
    selector, alias validation, and the ids derived from file names. Case
    folding is ASCII; trimming and control characters follow Unicode. */
module Names {
  import opened Wrappers

  const MAX_ALIAS_CHARS: nat := 64

  /** Unicode `White_Space`. */
  predicate IsSpace(c: char) {
    || '\U{9}' <= c <= '\U{D}' || c == ' ' || c == '\U{85}' || c == '\U{A0}' || c == '\U{1680}'
    || '\U{2000}' <= c <= '\U{200A}' || c == '\U{2028}' || c == '\U{2029}' || c == '\U{202F}'
    || c == '\U{205F}' || c == '\U{3000}'
  }

  const WHITE_SPACE: string :=
    "\U{9}\U{A}\U{B}\U{C}\U{D} \U{85}\U{A0}\U{1680}"
    + "\U{2000}\U{2001}\U{2002}\U{2003}\U{2004}\U{2005}\U{2006}\U{2007}\U{2008}\U{2009}\U{200A}"
    + "\U{2028}\U{2029}\U{202F}\U{205F}\U{3000}"

  /** The blanks are the twenty-five characters Unicode calls white space. */
  lemma BlanksAre(c: char)
    ensures IsSpace(c) <==> c in WHITE_SPACE
  {
    assert |WHITE_SPACE| == 25;
    if IsSpace(c) {
      var i := if c <= '\U{D}' then c as int - 9
               else if c == ' ' then 5
               else if c == '\U{85}' then 6
               else if c == '\U{A0}' then 7
               else if c == '\U{1680}' then 8
               else if c <= '\U{200A}' then 9 + (c as int - 0x2000)
               else if c == '\U{2028}' then 20
               else if c == '\U{2029}' then 21
               else if c == '\U{202F}' then 22
               else if c == '\U{205F}' then 23
               else 24;
      assert WHITE_SPACE[i] == c;
    }
  }

  predicate IsControl(c: char) { c <= '\U{1F}' || '\U{7F}' <= c <= '\U{9F}' }

  function LowerChar(c: char): char {
    if 'A' <= c <= 'Z' then (c as int + 32) as char else c
  }

  function Lower(s: string): (r: string)
    ensures |r| == |s|
    ensures forall i :: 0 <= i < |s| ==> r[i] == LowerChar(s[i])
  {
    if s == "" then "" else [LowerChar(s[0])] + Lower(s[1..])
  }

  function TrimStart(s: string): (r: string)
    ensures r == "" || !IsSpace(r[0])
  {
    if s != "" && IsSpace(s[0]) then TrimStart(s[1..]) else s
  }

  function TrimEnd(s: string): (r: string)
    ensures r == "" || !IsSpace(r[|r| - 1])
    ensures r <= s
  {
    if s != "" && IsSpace(s[|s| - 1]) then TrimEnd(s[..|s| - 1]) else s
  }

  function Trim(s: string): string { TrimEnd(TrimStart(s)) }

  /** Neither end is a blank. */
  predicate Trimmed(s: string) { s == "" || (!IsSpace(s[0]) && !IsSpace(s[|s| - 1])) }

  lemma TrimTrims(s: string)
    ensures Trimmed(Trim(s))
    ensures Trimmed(s) ==> Trim(s) == s
  {
    var t := TrimStart(s);
    if TrimEnd(t) != "" {
      assert TrimEnd(t)[0] == t[0];
    }
  }

  lemma {:induction false} TrimStartDrops(s: string) returns (i: nat)
    ensures i <= |s| && TrimStart(s) == s[i..] && forall k :: 0 <= k < i ==> IsSpace(s[k])
  {
    hide IsSpace;
    if s != "" && IsSpace(s[0]) {
      var j := TrimStartDrops(s[1..]);
      i := j + 1;
      forall k | 0 <= k < i ensures IsSpace(s[k]) {
        assert k > 0 ==> s[k] == s[1..][k - 1];
      }
    } else {
      i := 0;
    }
  }

  lemma {:induction false} TrimEndDrops(s: string) returns (j: nat)
    ensures j <= |s| && TrimEnd(s) == s[..j] && forall k :: j <= k < |s| ==> IsSpace(s[k])
  {
    hide IsSpace;
    if s != "" && IsSpace(s[|s| - 1]) {
      var init := s[..|s| - 1];
      j := TrimEndDrops(init);
      forall k | j <= k < |s| ensures IsSpace(s[k]) {
        assert k < |init| ==> s[k] == init[k];
      }
    } else {
      j := |s|;
    }
  }

  /** Trimming takes blanks off the two ends and nothing else. */
  lemma TrimDropsOnlyBlanks(s: string) returns (i: nat, j: nat)
    ensures i <= j <= |s| && Trim(s) == s[i..j]
    ensures forall k :: 0 <= k < i || j <= k < |s| ==> IsSpace(s[k])
  {
    hide IsSpace;
    hide TrimStart;
    hide TrimEnd;
    i := TrimStartDrops(s);
    var rest := s[i..];
    var n := TrimEndDrops(rest);
    j := i + n;
    assert forall k :: j <= k < |s| ==> s[k] == rest[k - i];
    assert rest[..n] == s[i..j];
  }

  /** The form names are compared in. */
  function LookupKey(name: string): string { Lower(Trim(name)) }

  predicate SameName(a: string, b: string) { LookupKey(a) == LookupKey(b) }

  /** The same character, or the two cases of one letter. */
  predicate SameLetter(c: char, d: char) {
    c == d || ('A' <= c <= 'Z' && d as int == c as int + 32) || ('A' <= d <= 'Z' && c as int == d as int + 32)
  }

  /** Two names are the same exactly when, blanks around them aside, they agree
      letter by letter in any casing. */
  lemma SameNameIff(a: string, b: string)
    ensures SameName(a, b) <==>
              |Trim(a)| == |Trim(b)| && forall i :: 0 <= i < |Trim(a)| ==> SameLetter(Trim(a)[i], Trim(b)[i])
  {
    var s, t := Trim(a), Trim(b);
    hide Trim;
    assert LookupKey(a) == Lower(s) && LookupKey(b) == Lower(t);
    if |s| == |t| {
      forall i | 0 <= i < |s| ensures Lower(s)[i] == Lower(t)[i] <==> SameLetter(s[i], t[i]) {
        assert LowerChar(s[i]) == LowerChar(t[i]) <==> SameLetter(s[i], t[i]);
      }
      if SameName(a, b) {
        forall i | 0 <= i < |s| ensures SameLetter(s[i], t[i]) {
          assert Lower(s)[i] == Lower(t)[i];
        }
      }
    }
  }

  predicate IsReserved(name: string) { Lower(Trim(name)) == "default" }

  datatype Selector = Default | Named(name: string)

  function ParseSelector(requested: Option<string>): Selector {
    var trimmed := Trim(if requested.Some? then requested.value else "");
    if trimmed == "" || IsReserved(trimmed) then Default else Named(trimmed)
  }

  datatype AliasProblem = Empty | TooLong | Reserved | Character(c: char) | DotSegment

  predicate BreaksAlias(c: char) { c == '/' || c == '\\' || c == '@' || IsControl(c) }

  function FirstBreaking(s: string): (r: Option<char>)
    ensures r.None? <==> forall c :: c in s ==> !BreaksAlias(c)
  {
    if s == "" then None else if BreaksAlias(s[0]) then Some(s[0]) else FirstBreaking(s[1..])
  }

  function ValidateAlias(raw: string): Result<string, AliasProblem> {
    var alias := Trim(raw);
    if alias == "" then Err(Empty)
    else if |alias| > MAX_ALIAS_CHARS then Err(TooLong)
    else if IsReserved(alias) then Err(Reserved)
    else if alias == "." || alias == ".." then Err(DotSegment)
    else match FirstBreaking(alias)
      case Some(bad) => Err(Character(bad))
      case None => Ok(alias)
  }

  /** The first character an alias may not contain. */
  ghost predicate FirstBreaks(s: string, c: char) {
    exists k :: 0 <= k < |s| && s[k] == c && BreaksAlias(c) && forall j :: 0 <= j < k ==> !BreaksAlias(s[j])
  }

  lemma {:induction false} FirstBreakingIsFirst(s: string)
    ensures FirstBreaking(s).Some? ==> FirstBreaks(s, FirstBreaking(s).value)
  {
    hide BreaksAlias;
    if s == "" {
    } else if BreaksAlias(s[0]) {
    } else {
      FirstBreakingIsFirst(s[1..]);
      if FirstBreaking(s[1..]).Some? {
        var c := FirstBreaking(s[1..]).value;
        var k :| 0 <= k < |s[1..]| && s[1..][k] == c && forall j :: 0 <= j < k ==> !BreaksAlias(s[1..][j]);
        assert s[k + 1] == c;
        assert forall j :: 0 < j < k + 1 ==> s[j] == s[1..][j - 1];
      }
    }
  }

  /** An alias is accepted exactly when, trimmed, it has 1 to 64 characters, is
      neither `default` in any casing nor `.` nor `..`, and has no slash,
      backslash, at sign or control character. */
  lemma ValidAliasIff(raw: string)
    ensures var t := Trim(raw);
            ValidateAlias(raw).Ok? <==>
              && 1 <= |t| <= 64 && Lower(t) != "default" && t != "." && t != ".."
              && forall c :: c in t ==>
                   c != '/' && c != '\\' && c != '@' && c > '\U{1F}' && !('\U{7F}' <= c <= '\U{9F}')
  {
    TrimTrims(raw);
    TrimTrims(Trim(raw));
    hide Trim;
    hide Lower;
    hide FirstBreaking;
  }

  /** What each refusal of an alias means, in the order they are tried. */
  lemma AliasRefusalSays(raw: string)
    ensures var t := Trim(raw);
            match ValidateAlias(raw)
            case Ok(alias) => alias == t
            case Err(Empty) => t == ""
            case Err(TooLong) => |t| > 64
            case Err(Reserved) => Lower(t) == "default"
            case Err(DotSegment) => t == "." || t == ".."
            case Err(Character(c)) => FirstBreaks(t, c)
  {
    TrimTrims(raw);
    TrimTrims(Trim(raw));
    FirstBreakingIsFirst(Trim(raw));
    hide Trim;
    hide Lower;
    hide FirstBreaking;
    hide FirstBreaks;
  }

  /** What is accepted is already trimmed, and is accepted again unchanged. */
  lemma ValidAliasIsFixed(raw: string)
    requires ValidateAlias(raw).Ok?
    ensures ValidateAlias(raw).value == Trim(raw)
    ensures ValidateAlias(ValidateAlias(raw).value) == ValidateAlias(raw)
  {
    TrimTrims(raw);
  }

  /** A selector names a trimmed, non-empty, unreserved string, and parsing only
      ever loses the blanks around a name. */
  lemma ParseKeepsKey(name: string)
    ensures ParseSelector(Some(name)).Named? ==>
              var t := ParseSelector(Some(name)).name;
              t == Trim(name) && Trimmed(t) && t != "" && LookupKey(t) == LookupKey(name)
    ensures LookupKey(Trim(name)) == LookupKey(name)
    ensures ParseSelector(Some(name)).Named? <==> LookupKey(name) != "" && LookupKey(name) != "default"
  {
    TrimTrims(name);
    TrimTrims(Trim(name));
  }

  // ------------------------------------------------------------ decimal suffix

  function Digit(d: nat): char requires d < 10 { ('0' as int + d) as char }

  /** `{n}` */
  function Decimal(n: nat): (r: string)
    ensures r != "" && forall c :: c in r ==> '0' <= c <= '9'
  {
    if n < 10 then [Digit(n)] else Decimal(n / 10) + [Digit(n % 10)]
  }

  lemma {:induction false} DecimalInjective(a: nat, b: nat)
    requires Decimal(a) == Decimal(b)
    ensures a == b
  {
    var s := Decimal(a);
    assert a >= 10 ==> s[..|s| - 1] == Decimal(a / 10) && |s| >= 2;
    assert b >= 10 ==> s[..|s| - 1] == Decimal(b / 10) && |s| >= 2;
    assert s[|s| - 1] == Digit(a % 10) == Digit(b % 10);
    if a >= 10 && b >= 10 {
      DecimalInjective(a / 10, b / 10);
    }
  }

  /** What a string of digits says. */
  function Value(s: string): nat
    requires forall c :: c in s ==> '0' <= c <= '9'
  {
    if s == "" then 0
    else
      var n := |s| - 1;
      assert s[n] in s && forall c :: c in s[..n] ==> c in s;
      10 * Value(s[..n]) + (s[n] as int - '0' as int)
  }

  /** A number's decimal form reads back as the number, without leading zeros. */
  lemma {:induction false} DecimalReads(n: nat)
    ensures Value(Decimal(n)) == n
    ensures |Decimal(n)| > 1 ==> Decimal(n)[0] != '0'
    decreases n
  {
    var s := Decimal(n);
    if n < 10 {
      assert s[..0] == "";
    } else {
      DecimalReads(n / 10);
      assert s[..|s| - 1] == Decimal(n / 10);
      assert s[0] == Decimal(n / 10)[0];
      if |Decimal(n / 10)| == 1 {
        assert Decimal(n / 10) == [Digit(n / 10)];
      }
    }
  }

  function Candidate(base: string, n: nat): string { base + "-" + Decimal(n) }

  lemma {:induction false} TrimStartAppend(s: string, t: string)
    requires t != "" && !IsSpace(t[0])
    ensures TrimStart(s + t) == TrimStart(s) + t
  {
    if s == "" {
      assert s + t == t;
    } else if IsSpace(s[0]) {
      assert (s + t)[1..] == s[1..] + t;
      TrimStartAppend(s[1..], t);
    }
  }

  lemma {:induction false} LowerAppend(s: string, t: string)
    ensures Lower(s + t) == Lower(s) + Lower(t)
  {
    hide Lower;
    hide LowerChar;
    forall i | 0 <= i < |s + t| ensures Lower(s + t)[i] == (Lower(s) + Lower(t))[i] {
      assert (s + t)[i] == if i < |s| then s[i] else t[i - |s|];
    }
  }

  /** A suffix that starts and ends without blanks and is already folded stays
      as it is in the key. */
  lemma KeyOfSuffixed(base: string, suffix: string)
    requires suffix != "" && !IsSpace(suffix[0]) && !IsSpace(suffix[|suffix| - 1])
    requires Lower(suffix) == suffix
    ensures LookupKey(base + suffix) == Lower(TrimStart(base)) + suffix
  {
    hide IsSpace;
    hide TrimStart;
    hide TrimEnd;
    hide Lower;
    TrimStartAppend(base, suffix);
    TrimEndKeeps(TrimStart(base), suffix);
    LowerAppend(TrimStart(base), suffix);
  }

  /** The key of a suffixed id is the folded base and the suffix as written. */
  lemma CandidateKey(base: string, n: nat)
    ensures LookupKey(Candidate(base, n)) == Lower(TrimStart(base)) + ("-" + Decimal(n))
  {
    SuffixIsPlain(n);
    hide Decimal;
    hide IsSpace;
    hide LookupKey;
    hide TrimStart;
    hide Lower;
    KeyOfSuffixed(base, "-" + Decimal(n));
    assert Candidate(base, n) == base + ("-" + Decimal(n));
  }

  lemma TrimEndKeeps(s: string, t: string)
    requires t != "" && !IsSpace(t[|t| - 1])
    ensures TrimEnd(s + t) == s + t
  {
    assert (s + t)[|s + t| - 1] == t[|t| - 1];
  }

  lemma SuffixIsPlain(n: nat)
    ensures var suffix := "-" + Decimal(n);
            && !IsSpace(suffix[0]) && !IsSpace(suffix[|suffix| - 1])
            && Lower(suffix) == suffix
  {
    var digits := Decimal(n);
    hide Decimal;
    var suffix := "-" + digits;
    assert suffix[|suffix| - 1] == digits[|digits| - 1] && digits[|digits| - 1] in digits;
    hide Lower;
    forall i | 0 <= i < |suffix| ensures Lower(suffix)[i] == suffix[i] {
      assert i > 0 ==> suffix[i] == digits[i - 1] && digits[i - 1] in digits;
    }
  }

  lemma SuffixCancels(p: string, s: string, t: string)
    requires p + ("-" + s) == p + ("-" + t)
    ensures s == t
  {
    assert s == (p + ("-" + s))[|p| + 1..];
    assert t == (p + ("-" + t))[|p| + 1..];
  }

  /** Different suffixes are different names, in any casing. */
  lemma CandidatesDiffer(base: string, a: nat, b: nat)
    requires SameName(Candidate(base, a), Candidate(base, b))
    ensures a == b
  {
    CandidateKey(base, a);
    CandidateKey(base, b);
    assert LookupKey(Candidate(base, a)) == LookupKey(Candidate(base, b));
    hide *;
    SuffixCancels(Lower(TrimStart(base)), Decimal(a), Decimal(b));
    DecimalInjective(a, b);
  }

  // -------------------------------------------------------------------- slugs

  predicate SlugChar(c: char) {
    'a' <= c <= 'z' || '0' <= c <= '9' || c == '.' || c == '-' || c == '_'
  }

  function SlugOne(c: char): (r: char)
    ensures SlugChar(r)
  {
    if 'A' <= c <= 'Z' then LowerChar(c) else if SlugChar(c) then c else '-'
  }

  function SlugChars(stem: string): (r: string)
    ensures |r| == |stem| && forall c :: c in r ==> SlugChar(c)
  {
    if stem == "" then "" else [SlugOne(stem[0])] + SlugChars(stem[1..])
  }

  function TrimDashes(s: string): (r: string)
    ensures r == "" || (r[0] != '-' && r[|r| - 1] != '-')
    ensures forall c :: c in r ==> c in s
    decreases |s|
  {
    if s != "" && s[0] == '-' then TrimDashes(s[1..])
    else if s != "" && s[|s| - 1] == '-' then TrimDashes(s[..|s| - 1])
    else s
  }

  /** `slug_for`, from the file stem when it is text. */
  function Slug(stem: Option<string>): (r: string)
    ensures r != "" && forall c :: c in r ==> SlugChar(c)
    ensures r[0] != '-' && r[|r| - 1] != '-'
  {
    var trimmed := TrimDashes(SlugChars(if stem.Some? then stem.value else "model"));
    if trimmed == "" then "model" else trimmed
  }

  /** How one character of a file name is written in an id: letters in lower case,
      digits and `.`, `-`, `_` as they are, anything else as a dash. */
  predicate WrittenAs(c: char, r: char) {
    if 'A' <= c <= 'Z' then r as int == c as int + 32
    else if 'a' <= c <= 'z' || '0' <= c <= '9' || c == '.' || c == '-' || c == '_' then r == c
    else r == '-'
  }

  lemma {:induction false} SlugCharsWrite(stem: string)
    ensures forall k :: 0 <= k < |stem| ==> WrittenAs(stem[k], SlugChars(stem)[k])
  {
    if stem == "" {
    } else {
      SlugCharsWrite(stem[1..]);
      forall k | 0 <= k < |stem| ensures WrittenAs(stem[k], SlugChars(stem)[k]) {
        assert k > 0 ==> stem[k] == stem[1..][k - 1] && SlugChars(stem)[k] == SlugChars(stem[1..])[k - 1];
      }
    }
  }

  lemma {:induction false} TrimDashesDrops(s: string) returns (i: nat, j: nat)
    ensures i <= j <= |s| && TrimDashes(s) == s[i..j]
    ensures forall k :: 0 <= k < i || j <= k < |s| ==> s[k] == '-'
    decreases |s|
  {
    if s != "" && s[0] == '-' {
      var a, b := TrimDashesDrops(s[1..]);
      i, j := a + 1, b + 1;
      forall k | 0 <= k < i || j <= k < |s| ensures s[k] == '-' {
        assert k > 0 ==> s[k] == s[1..][k - 1];
      }
      assert s[1..][a..b] == s[i..j];
    } else if s != "" && s[|s| - 1] == '-' {
      var init := s[..|s| - 1];
      i, j := TrimDashesDrops(init);
      forall k | 0 <= k < i || j <= k < |s| ensures s[k] == '-' {
        assert k < |init| ==> s[k] == init[k];
      }
      assert init[i..j] == s[i..j];
    } else {
      i, j := 0, |s|;
    }
  }

  /** The id of a file is its stem written character by character with the dashes
      taken off its ends: every letter and digit survives. Only a stem that has
      nothing else becomes `model`. */
  lemma SlugWritesTheStem(stem: string) returns (i: nat, j: nat)
    ensures i <= j <= |stem|
    ensures forall k :: 0 <= k < i || j <= k < |stem| ==> WrittenAs(stem[k], '-')
    ensures var slug := Slug(Some(stem));
            if i == j then slug == "model"
            else |slug| == j - i && forall k :: i <= k < j ==> WrittenAs(stem[k], slug[k - i])
    ensures Slug(None) == Slug(Some("model"))
  {
    SlugCharsWrite(stem);
    hide SlugChars;
    i, j := TrimDashesDrops(SlugChars(stem));
    hide TrimDashes;
    hide WrittenAs;
  }

  /** An id made of slug characters is trimmed and its own key. */
  lemma SlugIsItsOwnKey(id: string)
    requires id != "" && forall c :: c in id ==> SlugChar(c)
    ensures Trimmed(id) && Trim(id) == id && LookupKey(id) == id
  {
    assert id[0] in id && id[|id| - 1] in id;
    TrimTrims(id);
    forall i | 0 <= i < |id| ensures LowerChar(id[i]) == id[i] {
      assert id[i] in id;
    }
  }
}
