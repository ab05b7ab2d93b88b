/**
 Keys generated for technical specifications, from a label that Unicode normalisation, lower-casing
 and trimming have already passed.
 */
module SpecificationKeys {
  predicate Alnum(c: char) {
    'a' <= c <= 'z' || '0' <= c <= '9'
  }

  // JavaScript's \s.
  predicate IsSpace(c: char) {
    || c == ' ' || '\t' <= c <= '\r' || c == '\U{A0}' || c == '\U{1680}' || '\U{2000}' <= c <= '\U{200A}'
    || c == '\U{2028}' || c == '\U{2029}' || c == '\U{202F}' || c == '\U{205F}' || c == '\U{3000}' || c == '\U{FEFF}'
  }

  predicate IsMark(c: char) {
    '\U{300}' <= c <= '\U{36F}'
  }

  function Latin(c: char): string {
    match c
    case 'а' => "a" case 'б' => "b" case 'в' => "v" case 'г' => "g" case 'д' => "d" case 'е' => "e"
    case 'ё' => "e" case 'ж' => "zh" case 'з' => "z" case 'и' => "i" case 'й' => "i" case 'к' => "k"
    case 'л' => "l" case 'м' => "m" case 'н' => "n" case 'о' => "o" case 'п' => "p" case 'р' => "r"
    case 'с' => "s" case 'т' => "t" case 'у' => "u" case 'ф' => "f" case 'х' => "kh" case 'ц' => "ts"
    case 'ч' => "ch" case 'ш' => "sh" case 'щ' => "shch" case 'ъ' => "" case 'ы' => "y" case 'ь' => ""
    case 'э' => "e" case 'ю' => "yu" case 'я' => "ya"
    case _ => [c]
  }

  // What a global replacement of single characters makes of each: marks go, Cyrillic becomes Latin.
  function Letters(c: char): string {
    if IsMark(c) then "" else Latin(c)
  }

  function Signs(c: char): string {
    if c == '+' then "-plus-"
    else if c == '\U{2212}' || c == '\U{FE63}' || c == '\U{FF0D}' then "-minus-"
    else [c]
  }

  function Each(s: string, f: char -> string): string {
    if s == "" then "" else f(s[0]) + Each(s[1..], f)
  }

  // The length of the text without its trailing white space.
  function TextEnd(s: string): (n: nat)
    ensures n <= |s| && (n > 0 ==> !IsSpace(s[n - 1]))
  {
    if s == "" then 0 else if IsSpace(s[|s| - 1]) then TextEnd(s[..|s| - 1]) else |s|
  }

  // Only a hyphen that nothing but white space follows is spelt out.
  function FinalMinus(s: string): string {
    var end := TextEnd(s);
    if end > 0 && s[end - 1] == '-' then s[..end - 1] + "-minus-" + s[end..] else s
  }

  function SkipOther(s: string): (rest: string)
    ensures |rest| <= |s| && (rest != "" ==> Alnum(rest[0]))
    ensures s != "" && !Alnum(s[0]) ==> |rest| < |s|
  {
    if s == "" || Alnum(s[0]) then s else SkipOther(s[1..])
  }

  // Every run of other characters becomes one hyphen.
  function Hyphenate(s: string): string
    decreases |s|
  {
    if s == "" then ""
    else if Alnum(s[0]) then [s[0]] + Hyphenate(s[1..])
    else "-" + Hyphenate(SkipOther(s))
  }

  function StripLeft(s: string): string {
    if s != "" && s[0] == '-' then StripLeft(s[1..]) else s
  }

  function StripRight(s: string): string {
    if s != "" && s[|s| - 1] == '-' then StripRight(s[..|s| - 1]) else s
  }

  function Slug(name: string): string {
    StripRight(StripLeft(Hyphenate(Each(FinalMinus(Each(name, Letters)), Signs))))
  }

  const MAX_KEY := 100
  const KEPT := 91

  function Key(name: string, canonical: string): string {
    var slug := Slug(name);
    if slug == "" then "spec-" + HashText(canonical)
    else if |slug| <= MAX_KEY then slug
    else StripRight(slug[..KEPT]) + "-" + HashText(slug)
  }

  // ---------------------------------------------------------------------------------------------
  // The 32-bit hash
  // ---------------------------------------------------------------------------------------------

  function Mixed(hash: bv32, c: char): bv32 {
    (hash ^ (c as int as bv32)) * 16777619
  }

  function Hash(s: string): bv32 {
    if s == "" then 2166136261 else Mixed(Hash(s[..|s| - 1]), s[|s| - 1])
  }

  function HexDigit(d: int): (c: char)
    requires 0 <= d < 16
    ensures Alnum(c)
  {
    if d < 10 then '0' + d as char else 'a' + (d - 10) as char
  }

  function ToHex(n: nat): string {
    if n < 16 then [HexDigit(n)] else ToHex(n / 16) + [HexDigit(n % 16)]
  }

  function PadStart(s: string, length: nat): string
    decreases length - |s|
  {
    if |s| >= length then s else PadStart("0" + s, length)
  }

  function HashText(s: string): string {
    PadStart(ToHex(Hash(s) as int), 8)
  }

  method StableHash(value: string) returns (text: string)
    ensures text == HashText(value)
    ensures |text| == 8 && forall c <- text :: Alnum(c)
  {
    var hash: bv32 := 2166136261;
    for i := 0 to |value|
      invariant hash == Hash(value[..i])
    {
      assert value[..i + 1][..i] == value[..i];
      hash := Mixed(hash, value[i]);
    }
    assert value[..|value|] == value;
    text := PadStart(ToHex(hash as int), 8);
    HashIsEightDigits(value);
  }

  function Pow16(k: nat): nat {
    if k == 0 then 1 else 16 * Pow16(k - 1)
  }

  lemma {:induction false} HexLength(n: nat, k: nat)
    requires k >= 1 && n < Pow16(k)
    ensures 1 <= |ToHex(n)| <= k && forall c <- ToHex(n) :: Alnum(c)
    decreases k
  {
    if n >= 16 { HexLength(n / 16, k - 1); }
  }

  lemma {:induction false} PadLength(s: string, length: nat)
    requires |s| <= length && forall c <- s :: Alnum(c)
    ensures |PadStart(s, length)| == length && forall c <- PadStart(s, length) :: Alnum(c)
    decreases length - |s|
  {
    if |s| < length { PadLength("0" + s, length); }
  }

  lemma HashIsEightDigits(s: string)
    ensures |HashText(s)| == 8 && forall c <- HashText(s) :: Alnum(c)
  {
    assert Pow16(8) == 0x1_0000_0000 by {
      assert Pow16(2) == 256 && Pow16(4) == 65536 && Pow16(6) == 16777216;
    }
    HexLength(Hash(s) as int, 8);
    PadLength(ToHex(Hash(s) as int), 8);
  }

  // ---------------------------------------------------------------------------------------------
  // The server's pattern
  // ---------------------------------------------------------------------------------------------

  predicate Word(s: string) {
    s != "" && forall c <- s :: Alnum(c)
  }

  // Words with one character between each two.
  function Joined(words: seq<string>, link: char): string {
    if words == [] then ""
    else if |words| == 1 then words[0]
    else words[0] + [link] + Joined(words[1..], link)
  }

  // ^[a-z0-9]+(-[a-z0-9]+)*$, read as words joined by single hyphens.
  ghost predicate Matches(s: string) {
    exists words: seq<string> :: words != [] && (forall w <- words :: Word(w)) && s == Joined(words, '-')
  }

  // Letters, digits and hyphens, no two hyphens side by side.
  predicate Spaced(s: string) {
    forall i | 0 <= i < |s| :: Alnum(s[i]) || (s[i] == '-' && (i + 1 < |s| ==> Alnum(s[i + 1])))
  }

  predicate IsSlug(s: string) {
    s != "" && Spaced(s) && Alnum(s[0]) && Alnum(s[|s| - 1])
  }

  function RunEnd(s: string, p: char -> bool): (n: nat)
    ensures n <= |s| && (forall i | 0 <= i < n :: p(s[i])) && (n < |s| ==> !p(s[n]))
  {
    if s == "" || !p(s[0]) then 0 else 1 + RunEnd(s[1..], p)
  }

  lemma {:induction false} SlugMatches(s: string) returns (words: seq<string>)
    requires IsSlug(s)
    ensures words != [] && (forall w <- words :: Word(w)) && s == Joined(words, '-')
    decreases |s|
  {
    var n := RunEnd(s, Alnum);
    if n == |s| {
      words := [s];
    } else {
      var rest := SlugMatches(s[n + 1..]);
      words := [s[..n]] + rest;
      assert s == s[..n] + "-" + s[n + 1..];
    }
  }

  lemma JoinTwo(stem: string, rest: string)
    requires IsSlug(stem) && IsSlug(rest)
    ensures IsSlug(stem + "-" + rest)
  {
  }

  lemma WordIsSlug(s: string)
    requires Word(s)
    ensures IsSlug(s)
  {
  }

  lemma {:induction false} JoinedIsSlug(words: seq<string>)
    requires words != [] && forall w <- words :: Word(w)
    ensures IsSlug(Joined(words, '-'))
  {
    WordIsSlug(words[0]);
    if |words| > 1 {
      JoinedIsSlug(words[1..]);
      JoinTwo(words[0], Joined(words[1..], '-'));
    }
  }

  lemma MatchesIsSlug(s: string)
    ensures Matches(s) <==> IsSlug(s)
  {
    if IsSlug(s) {
      var words := SlugMatches(s);
    }
    if Matches(s) {
      var words: seq<string> :| words != [] && (forall w <- words :: Word(w)) && s == Joined(words, '-');
      JoinedIsSlug(words);
    }
  }

  // ---------------------------------------------------------------------------------------------
  // Every key satisfies it
  // ---------------------------------------------------------------------------------------------

  lemma {:induction false} HyphenateSpaced(s: string)
    ensures Spaced(Hyphenate(s))
    ensures s != "" && Alnum(s[0]) ==> Hyphenate(s) != "" && Hyphenate(s)[0] == s[0]
    decreases |s|
  {
    if s != "" {
      if Alnum(s[0]) { HyphenateSpaced(s[1..]); } else { HyphenateSpaced(SkipOther(s)); }
    }
  }

  lemma {:induction false} StripLeftSpaced(s: string)
    requires Spaced(s)
    ensures Spaced(StripLeft(s)) && (StripLeft(s) != "" ==> Alnum(StripLeft(s)[0]))
  {
  }

  lemma {:induction false} StripRightSpaced(s: string)
    requires Spaced(s) && (s != "" ==> Alnum(s[0]))
    ensures StripRight(s) != "" ==> IsSlug(StripRight(s))
    ensures s != "" ==> StripRight(s) != ""
    ensures |StripRight(s)| <= |s|
  {
  }

  lemma SlugIsSlug(name: string)
    ensures Slug(name) == "" || IsSlug(Slug(name))
  {
    var text := Each(FinalMinus(Each(name, Letters)), Signs);
    HyphenateSpaced(text);
    StripLeftSpaced(Hyphenate(text));
    StripRightSpaced(StripLeft(Hyphenate(text)));
  }

  lemma NamelessKeyIsSlug(name: string, canonical: string)
    requires Slug(name) == ""
    ensures |Key(name, canonical)| == 13 && IsSlug(Key(name, canonical))
  {
    HashIsEightDigits(canonical);
    WordIsSlug(HashText(canonical));
    JoinTwo("spec", HashText(canonical));
    assert "spec-" == "spec" + "-";
  }

  lemma LongKeyIsSlug(name: string, canonical: string)
    requires |Slug(name)| > MAX_KEY
    ensures |Key(name, canonical)| <= MAX_KEY && IsSlug(Key(name, canonical))
  {
    var slug := Slug(name);
    SlugIsSlug(name);
    HashIsEightDigits(slug);
    StripRightSpaced(slug[..KEPT]);
    WordIsSlug(HashText(slug));
    JoinTwo(StripRight(slug[..KEPT]), HashText(slug));
  }

  // In all three branches, the key is one to a hundred characters of the server's pattern.
  lemma KeySatisfiesServer(name: string, canonical: string)
    ensures 1 <= |Key(name, canonical)| <= MAX_KEY && Matches(Key(name, canonical))
  {
    SlugIsSlug(name);
    if Slug(name) == "" {
      NamelessKeyIsSlug(name, canonical);
    } else if |Slug(name)| > MAX_KEY {
      LongKeyIsSlug(name, canonical);
    }
    MatchesIsSlug(Key(name, canonical));
  }

  // ---------------------------------------------------------------------------------------------
  // A slug is the words of the text
  // ---------------------------------------------------------------------------------------------

  // The longest stretches of one kind of character, in order.
  function Runs(s: string, p: char -> bool): (runs: seq<string>)
    ensures forall run <- runs :: run != "" && forall c <- run :: p(c)
    decreases |s|
  {
    if s == "" then []
    else if !p(s[0]) then Runs(s[1..], p)
    else var n := RunEnd(s, p); [s[..n]] + Runs(s[n..], p)
  }

  lemma {:induction false} RunsAfterOther(s: string)
    ensures Runs(SkipOther(s), Alnum) == Runs(s, Alnum)
  {
    if s != "" && !Alnum(s[0]) { RunsAfterOther(s[1..]); }
  }

  lemma {:induction false} HyphenateRun(s: string)
    ensures Hyphenate(s) == s[..RunEnd(s, Alnum)] + Hyphenate(s[RunEnd(s, Alnum)..])
  {
    if s != "" && Alnum(s[0]) {
      HyphenateRun(s[1..]);
      assert s[RunEnd(s, Alnum)..] == s[1..][RunEnd(s[1..], Alnum)..];
    }
  }

  // From a letter or digit on: the words with a hyphen between each two, and perhaps one at the end.
  lemma {:induction false} HyphenateWords(s: string)
    requires s != "" && Alnum(s[0])
    ensures Runs(s, Alnum) != []
    ensures Hyphenate(s) == Joined(Runs(s, Alnum), '-') || Hyphenate(s) == Joined(Runs(s, Alnum), '-') + "-"
    decreases |s|
  {
    var n := RunEnd(s, Alnum);
    var rest := s[n..];
    HyphenateRun(s);
    RunsAfterOther(rest);
    if rest != "" {
      if SkipOther(rest) == "" {
        assert Runs(rest, Alnum) == [] && Hyphenate(rest) == "-";
      } else {
        HyphenateWords(SkipOther(rest));
        assert Runs(s, Alnum)[1..] == Runs(rest, Alnum);
        assert Hyphenate(s) == s[..n] + "-" + Hyphenate(SkipOther(rest));
      }
    }
  }

  lemma StripEnds(s: string)
    requires IsSlug(s)
    ensures StripLeft("-" + s) == StripLeft(s) == s && StripRight(s + "-") == StripRight(s) == s
  {
    assert ("-" + s)[1..] == s && (s + "-")[..|s|] == s;
  }

  lemma WordsStripped(s: string)
    ensures StripRight(StripLeft(Hyphenate(s))) == Joined(Runs(s, Alnum), '-')
  {
    RunsAfterOther(s);
    var text := SkipOther(s);
    if text != "" {
      HyphenateWords(text);
      var words := Joined(Runs(text, Alnum), '-');
      JoinedIsSlug(Runs(text, Alnum));
      StripEnds(words);
      assert StripLeft(Hyphenate(text)) == Hyphenate(text);
      assert s != text ==> StripLeft("-" + Hyphenate(text)) == StripLeft(Hyphenate(text)) by {
        assert ("-" + Hyphenate(text))[1..] == Hyphenate(text);
      }
      StartsOther(s);
    } else {
      StartsOther(s);
    }
  }

  lemma StartsOther(s: string)
    ensures s != SkipOther(s) ==> Hyphenate(s) == "-" + Hyphenate(SkipOther(s))
    ensures s == SkipOther(s) ==> s == "" || Alnum(s[0])
  {
  }

  // A label with its accents dropped, its Cyrillic letters transliterated and its signs spelt out.
  function Spelt(name: string): string {
    Each(FinalMinus(Each(name, Letters)), Signs)
  }

  // A slug is the words of the spelt-out label, a single hyphen between each two.
  lemma SlugIsItsWords(name: string)
    ensures Slug(name) == Joined(Runs(Spelt(name), Alnum), '-')
  {
    WordsStripped(Spelt(name));
  }

  lemma {:induction false} EachConcat(a: string, b: string, f: char -> string)
    ensures Each(a + b, f) == Each(a, f) + Each(b, f)
  {
    if a == "" {
      assert a + b == b;
    } else {
      assert (a + b)[1..] == a[1..] + b;
      EachConcat(a[1..], b, f);
    }
  }

  lemma EachLast(a: string, c: char, f: char -> string)
    ensures Each(a + [c], f) == Each(a, f) + f(c)
  {
    EachConcat(a, [c], f);
    assert Each([c], f) == f(c) + Each("", f);
  }

  lemma RunFirst(s: string, p: char -> bool)
    requires s != "" && p(s[0])
    ensures Runs(s, p) == [s[..RunEnd(s, p)]] + Runs(s[RunEnd(s, p)..], p)
  {
  }

  lemma Cut(a: string, b: string, n: nat)
    requires n <= |a|
    ensures (a + b)[..n] == a[..n] && (a + b)[n..] == a[n..] + b
  {
  }

  lemma RunConcat(a: string, b: string)
    requires a != "" && Alnum(a[0]) && b != "" && !Alnum(b[0])
    ensures Runs(a + b, Alnum) == [a[..RunEnd(a, Alnum)]] + Runs(a[RunEnd(a, Alnum)..] + b, Alnum)
  {
    RunEndConcat(a, b);
    RunFirst(a + b, Alnum);
    Cut(a, b, RunEnd(a, Alnum));
  }

  lemma {:induction false} RunsConcat(a: string, b: string)
    requires b != "" && !Alnum(b[0])
    ensures Runs(a + b, Alnum) == Runs(a, Alnum) + Runs(b, Alnum)
    decreases |a|
  {
    if a == "" {
      assert a + b == b;
    } else if !Alnum(a[0]) {
      assert (a + b)[1..] == a[1..] + b;
      RunsConcat(a[1..], b);
    } else {
      RunConcat(a, b);
      RunFirst(a, Alnum);
      RunsConcat(a[RunEnd(a, Alnum)..], b);
    }
  }

  lemma {:induction false} RunEndConcat(a: string, b: string)
    requires b != "" && !Alnum(b[0])
    ensures RunEnd(a + b, Alnum) == RunEnd(a, Alnum)
  {
    if a == "" {
      assert a + b == b;
    } else if Alnum(a[0]) {
      assert (a + b)[1..] == a[1..] + b;
      RunEndConcat(a[1..], b);
    }
  }

  lemma SignRuns()
    ensures Runs("-plus-", Alnum) == ["plus"] && Runs("-minus-", Alnum) == ["minus"]
  {
    OneRun("plus");
    assert "-plus-"[1..] == "plus" + "-";
    OneRun("minus");
    assert "-minus-"[1..] == "minus" + "-";
  }

  lemma OneRun(word: string)
    requires Word(word)
    ensures Runs(word + "-", Alnum) == [word]
  {
    RunsConcat(word, "-");
    assert Runs("-", Alnum) == Runs(""[..], Alnum) == [];
    WholeRun(word);
  }

  lemma {:induction false} WholeRun(word: string)
    requires forall c <- word :: Alnum(c)
    ensures RunEnd(word, Alnum) == |word|
  {
    if word != "" { WholeRun(word[1..]); }
  }

  predicate IsMinus(c: char) {
    c == '-' || c == '\U{2212}' || c == '\U{FE63}' || c == '\U{FF0D}'
  }

  lemma FinalSign(text: string, sign: char)
    requires !IsSpace(sign)
    ensures FinalMinus(text + [sign]) == text + if sign == '-' then "-minus-" else [sign]
  {
    assert TextEnd(text + [sign]) == |text| + 1;
    assert (text + [sign])[..|text|] == text && (text + [sign])[|text| + 1..] == "";
  }

  // What a final sign makes of the spelt-out label.
  lemma PlusLetters()
    ensures Letters('+') == ['+'] && Signs('+') == "-plus-" && !IsSpace('+')
  {
  }

  lemma SpeltPlus(name: string)
    ensures Spelt(name + ['+']) == Each(Each(name, Letters), Signs) + "-plus-"
  {
    PlusLetters();
    EachLast(name, '+', Letters);
    FinalSign(Each(name, Letters), '+');
    EachLast(Each(name, Letters), '+', Signs);
  }

  lemma MinusLetters(minus: char)
    requires IsMinus(minus)
    ensures Letters(minus) == [minus] && !IsSpace(minus) && (minus != '-' ==> Signs(minus) == "-minus-")
  {
  }

  lemma MinusUnchanged()
    ensures Each("-minus-", Signs) == "-minus-"
  {
    EachUnchanged("-minus-", Signs);
  }

  lemma SpeltMinus(name: string, minus: char)
    requires IsMinus(minus)
    ensures Spelt(name + [minus]) == Each(Each(name, Letters), Signs) + "-minus-"
  {
    var text := Each(name, Letters);
    MinusLetters(minus);
    EachLast(name, minus, Letters);
    FinalSign(text, minus);
    if minus == '-' {
      EachConcat(text, "-minus-", Signs);
      MinusUnchanged();
    } else {
      EachLast(text, minus, Signs);
    }
  }

  lemma {:induction false} JoinedLast(words: seq<string>, last: string)
    requires words != []
    ensures Joined(words + [last], '-') == Joined(words, '-') + "-" + last
  {
    if |words| > 1 {
      assert (words + [last])[1..] == words[1..] + [last];
      JoinedLast(words[1..], last);
    }
  }

  // A sign at the end of a label is its last word, `plus` or, however the minus is written, `minus`. So
  // two labels that differ in their final sign alone have different slugs, whatever comes before.
  lemma PolarityIsKept(name: string, minus: char)
    requires IsMinus(minus)
    ensures var words := Runs(Each(Each(name, Letters), Signs), Alnum);
            && Slug(name + "+") == Joined(words + ["plus"], '-')
            && Slug(name + [minus]) == Joined(words + ["minus"], '-')
    ensures Slug(name + "+") != Slug(name + [minus])
  {
    var text := Each(Each(name, Letters), Signs);
    SpeltPlus(name);
    SpeltMinus(name, minus);
    assert name + "+" == name + ['+'];
    SlugIsItsWords(name + "+");
    SlugIsItsWords(name + [minus]);
    RunsConcat(text, "-plus-");
    RunsConcat(text, "-minus-");
    SignRuns();
    var words := Runs(text, Alnum);
    if words != [] {
      JoinedLast(words, "plus");
      JoinedLast(words, "minus");
    }
  }

  // Each Cyrillic letter is transliterated so, marks are dropped, everything else stays.
  lemma CyrillicLetters()
    ensures && Letters('а') == "a" && Letters('б') == "b" && Letters('в') == "v" && Letters('г') == "g"
            && Letters('д') == "d" && Letters('е') == "e" && Letters('ё') == "e" && Letters('ж') == "zh"
            && Letters('з') == "z" && Letters('и') == "i" && Letters('й') == "i"
  {
  }

  lemma MoreCyrillicLetters()
    ensures && Letters('к') == "k" && Letters('л') == "l" && Letters('м') == "m" && Letters('н') == "n"
            && Letters('о') == "o" && Letters('п') == "p" && Letters('р') == "r" && Letters('с') == "s"
            && Letters('т') == "t" && Letters('у') == "u" && Letters('ф') == "f"
  {
  }

  lemma LongCyrillicLetters()
    ensures && Letters('х') == "kh" && Letters('ц') == "ts" && Letters('ч') == "ch" && Letters('ш') == "sh"
            && Letters('щ') == "shch"
  {
  }

  lemma LastCyrillicLetters()
    ensures && Letters('ъ') == "" && Letters('ы') == "y" && Letters('ь') == ""
            && Letters('э') == "e" && Letters('ю') == "yu" && Letters('я') == "ya"
  {
  }

  lemma OtherLetters(c: char)
    ensures IsMark(c) ==> Letters(c) == ""
    ensures !IsMark(c) && !('а' <= c <= 'я') && c != 'ё' ==> Letters(c) == [c]
  {
  }

  // ---------------------------------------------------------------------------------------------
  // Different texts, different keys, as far as the hash goes
  // ---------------------------------------------------------------------------------------------

  lemma MixedA()
    ensures Mixed(2166136261, 'a') == 0xe40c292c
  {
  }

  // Two published vectors of the 32-bit FNV-1a hash.
  lemma HashVectors()
    ensures Hash("") == 0x811c9dc5 && Hash("a") == 0xe40c292c
  {
    MixedA();
    assert "a"[..0] == "";
  }

  function DigitOf(c: char): nat {
    if '0' <= c <= '9' then c as int - '0' as int else if 'a' <= c <= 'f' then c as int - 'a' as int + 10 else 0
  }

  function FromHex(s: string): nat {
    if s == "" then 0 else 16 * FromHex(s[..|s| - 1]) + DigitOf(s[|s| - 1])
  }

  lemma {:induction false} HexReadBack(n: nat)
    ensures FromHex(ToHex(n)) == n
  {
    if n < 16 {
      assert ToHex(n)[..0] == "";
    } else {
      HexReadBack(n / 16);
      assert ToHex(n)[..|ToHex(n)| - 1] == ToHex(n / 16);
    }
  }

  lemma {:induction false} ZeroAhead(s: string)
    ensures FromHex("0" + s) == FromHex(s)
  {
    if s == "" {
      assert "0" + s == "0" && "0"[..0] == "";
    } else {
      assert ("0" + s)[..|s|] == "0" + s[..|s| - 1];
      ZeroAhead(s[..|s| - 1]);
    }
  }

  lemma {:induction false} PadReadBack(s: string, length: nat)
    ensures FromHex(PadStart(s, length)) == FromHex(s)
    decreases length - |s|
  {
    if |s| < length {
      PadReadBack("0" + s, length);
      ZeroAhead(s);
    }
  }

  // The eight digits are the hash.
  lemma HashReadBack(s: string)
    ensures FromHex(HashText(s)) == Hash(s) as int
  {
    HexReadBack(Hash(s) as int);
    PadReadBack(ToHex(Hash(s) as int), 8);
  }

  lemma HashTextExact(a: string, b: string)
    ensures HashText(a) == HashText(b) <==> Hash(a) as int == Hash(b) as int
  {
    HashReadBack(a);
    HashReadBack(b);
  }

  // Labels without any slug get the same key exactly if their canonical texts have the same hash.
  lemma NamelessKeys(a: string, canonicalA: string, b: string, canonicalB: string)
    requires Slug(a) == "" && Slug(b) == ""
    ensures Key(a, canonicalA) == Key(b, canonicalB) <==> Hash(canonicalA) as int == Hash(canonicalB) as int
  {
    HashTextExact(canonicalA, canonicalB);
    assert Key(a, canonicalA)[5..] == HashText(canonicalA) && Key(b, canonicalB)[5..] == HashText(canonicalB);
  }

  // Labels with long slugs get the same key exactly if the slugs have the same hash and begin alike, up to
  // hyphens at the cut.
  lemma LongKeys(a: string, canonicalA: string, b: string, canonicalB: string)
    requires |Slug(a)| > 100 && |Slug(b)| > 100
    ensures Key(a, canonicalA) == Key(b, canonicalB) <==>
              && Hash(Slug(a)) as int == Hash(Slug(b)) as int
              && StripRight(Slug(a)[..91]) == StripRight(Slug(b)[..91])
  {
    HashTextExact(Slug(a), Slug(b));
    LongKeySplit(a, canonicalA);
    LongKeySplit(b, canonicalB);
  }

  lemma LongKeySplit(name: string, canonical: string)
    requires |Slug(name)| > MAX_KEY
    ensures var key := Key(name, canonical);
      && |key| > 9 && key[|key| - 8..] == HashText(Slug(name)) && key[..|key| - 9] == StripRight(Slug(name)[..KEPT])
  {
    HashIsEightDigits(Slug(name));
    SlugIsSlug(name);
    StripRightSpaced(Slug(name)[..KEPT]);
  }

  // ---------------------------------------------------------------------------------------------
  // A key is its own key
  // ---------------------------------------------------------------------------------------------

  lemma {:induction false} EachUnchanged(s: string, f: char -> string)
    requires forall c <- s :: f(c) == [c]
    ensures Each(s, f) == s
  {
    if s != "" { EachUnchanged(s[1..], f); }
  }

  // From an index on: no hyphen is doubled, so none is merged.
  lemma {:induction false} HyphenateUnchanged(s: string, i: nat)
    requires IsSlug(s) && i <= |s|
    ensures Hyphenate(s[i..]) == s[i..]
    decreases |s| - i
  {
    if i < |s| {
      assert s[i..][0] == s[i] && s[i..][1..] == s[i + 1..];
      HyphenateUnchanged(s, i + 1);
      if !Alnum(s[i]) {
        assert i + 1 < |s| && Alnum(s[i + 1]);
        assert SkipOther(s[i..]) == SkipOther(s[i + 1..]) == s[i + 1..];
      }
    }
  }

  lemma SlugLetter(c: char)
    requires Alnum(c) || c == '-'
    ensures Letters(c) == [c] && Signs(c) == [c] && !IsSpace(c)
  {
  }

  lemma SlugLetters(s: string)
    requires IsSlug(s)
    ensures Each(s, Letters) == s
  {
    forall c | c in s ensures Letters(c) == [c] { SlugLetter(c); }
    EachUnchanged(s, Letters);
  }

  lemma SlugSigns(s: string)
    requires IsSlug(s)
    ensures Each(s, Signs) == s
  {
    forall c | c in s ensures Signs(c) == [c] { SlugLetter(c); }
    EachUnchanged(s, Signs);
  }

  lemma SlugEnd(s: string)
    requires IsSlug(s)
    ensures FinalMinus(s) == s
  {
    SlugLetter(s[|s| - 1]);
  }

  lemma SlugHyphens(s: string)
    requires IsSlug(s)
    ensures StripRight(StripLeft(Hyphenate(s))) == s
  {
    HyphenateUnchanged(s, 0);
    assert s[0..] == s;
  }

  lemma SlugOfSlug(s: string)
    requires IsSlug(s)
    ensures Slug(s) == s
  {
    SlugLetters(s);
    SlugEnd(s);
    SlugSigns(s);
    SlugHyphens(s);
  }

  // Generating again from a generated key changes nothing.
  lemma KeyIsStable(name: string, canonical: string, other: string)
    ensures Key(Key(name, canonical), other) == Key(name, canonical)
  {
    KeySatisfiesServer(name, canonical);
    MatchesIsSlug(Key(name, canonical));
    SlugOfSlug(Key(name, canonical));
  }
}
