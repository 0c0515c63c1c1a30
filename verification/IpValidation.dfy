/** Which texts count as IPv4 addresses and ranges, from the regular expression up. */
module IpValidationModel {
  import opened Wrappers
  import Text

  // ---------- regular expressions ----------

  /** The constructs the pattern uses. */
  datatype Regex =
    | Range(lo: char, hi: char)
    | Then(first: Regex, second: Regex)
    | Or(left: Regex, right: Regex)
    | Maybe(inner: Regex)

  /** A match of a whole text, as the anchors `^` and `$` require. */
  ghost predicate Matches(r: Regex, s: string) {
    match r
    case Range(lo, hi) => |s| == 1 && lo <= s[0] <= hi
    case Then(first, second) => exists i :: 0 <= i <= |s| && Matches(first, s[..i]) && Matches(second, s[i..])
    case Or(left, right) => Matches(left, s) || Matches(right, s)
    case Maybe(inner) => s == "" || Matches(inner, s)
  }

  const DIGIT := Range('0', '9')
  const DOT := Range('.', '.')
  /** `25[0-5]` */
  const TOP := Then(Range('2', '2'), Then(Range('5', '5'), Range('0', '5')))
  /** `2[0-4][0-9]` */
  const HIGH := Then(Range('2', '2'), Then(Range('0', '4'), DIGIT))
  /** `[01]?[0-9][0-9]?` */
  const LOW := Then(Maybe(Range('0', '1')), Then(DIGIT, Maybe(DIGIT)))
  const OCTET := Or(TOP, Or(HIGH, LOW))
  const IPV4 := Then(OCTET, Then(DOT, Then(OCTET, Then(DOT, Then(OCTET, Then(DOT, OCTET))))))

  // ---------- octets ----------

  predicate IsDigit(c: char) {
    '0' <= c <= '9'
  }

  predicate Digits(s: string) {
    forall i :: 0 <= i < |s| ==> IsDigit(s[i])
  }

  /** One to three digits, leading zeros allowed, of value at most 255. */
  predicate Octet(s: string) {
    1 <= |s| <= 3 && Digits(s) && Text.DigitsValue(s) <= 255
  }

  lemma Matches3(a: Regex, b: Regex, c: Regex, s: string)
    requires a.Range? && b.Range? && c.Range?
    ensures Matches(Then(a, Then(b, c)), s) <==>
      |s| == 3 && a.lo <= s[0] <= a.hi && b.lo <= s[1] <= b.hi && c.lo <= s[2] <= c.hi
  {
    if Matches(Then(a, Then(b, c)), s) {
      var i :| 0 <= i <= |s| && Matches(a, s[..i]) && Matches(Then(b, c), s[i..]);
      var t := s[i..];
      var j :| 0 <= j <= |t| && Matches(b, t[..j]) && Matches(c, t[j..]);
    }
    if |s| == 3 && a.lo <= s[0] <= a.hi && b.lo <= s[1] <= b.hi && c.lo <= s[2] <= c.hi {
      var t := s[1..];
      assert t[..1] == [s[1]] && t[1..] == [s[2]] && s[..1] == [s[0]];
      assert Matches(b, t[..1]) && Matches(c, t[1..]);
      assert Matches(Then(b, c), t);
      assert Matches(a, s[..1]) && Matches(Then(b, c), s[1..]);
    }
  }

  lemma MatchesThen(first: Regex, second: Regex, s: string)
    ensures Matches(Then(first, second), s) <==>
      exists i :: 0 <= i <= |s| && Matches(first, s[..i]) && Matches(second, s[i..])
  {
  }

  /** `[0-9][0-9]?` */
  lemma MatchesOneOrTwo(s: string)
    ensures Matches(Then(DIGIT, Maybe(DIGIT)), s) <==> 1 <= |s| <= 2 && Digits(s)
  {
    MatchesThen(DIGIT, Maybe(DIGIT), s);
    if Matches(Then(DIGIT, Maybe(DIGIT)), s) {
      var i :| 0 <= i <= |s| && Matches(DIGIT, s[..i]) && Matches(Maybe(DIGIT), s[i..]);
      assert s[0] == s[..i][0];
      assert |s| == 2 ==> s[1] == s[i..][0];
    }
    if 1 <= |s| <= 2 && Digits(s) {
      assert s[..1][0] == s[0] && (|s| == 2 ==> s[1..][0] == s[1]);
      assert Matches(DIGIT, s[..1]) && Matches(Maybe(DIGIT), s[1..]);
    }
  }

  lemma MatchesLow(s: string)
    ensures Matches(LOW, s) <==> Digits(s) && (1 <= |s| <= 2 || (|s| == 3 && s[0] <= '1'))
  {
    var head, tail := Maybe(Range('0', '1')), Then(DIGIT, Maybe(DIGIT));
    MatchesThen(head, tail, s);
    forall i | 0 <= i <= |s|
      ensures Matches(tail, s[i..]) <==> 1 <= |s| - i <= 2 && Digits(s[i..])
      ensures Matches(head, s[..i]) <==> i == 0 || (i == 1 && '0' <= s[0] <= '1')
    {
      MatchesOneOrTwo(s[i..]);
      assert i == 1 ==> s[..i][0] == s[0];
    }
    hide Matches;
    assert forall i, k :: 0 <= i <= k < |s| ==> s[i..][k - i] == s[k];
    if Matches(LOW, s) {
      var i :| 0 <= i <= |s| && Matches(head, s[..i]) && Matches(tail, s[i..]);
      assert Digits(s);
    }
    if Digits(s) && (1 <= |s| <= 2 || (|s| == 3 && s[0] <= '1')) {
      var i := if |s| == 3 then 1 else 0;
      assert Digits(s[i..]);
      assert Matches(head, s[..i]) && Matches(tail, s[i..]);
    }
  }

  lemma ValueOfShort(s: string)
    requires Digits(s) && 1 <= |s| <= 3
    ensures Text.DigitsValue(s) ==
      if |s| == 1 then (s[0] - '0') as nat
      else if |s| == 2 then 10 * (s[0] - '0') as nat + (s[1] - '0') as nat
      else 100 * (s[0] - '0') as nat + 10 * (s[1] - '0') as nat + (s[2] - '0') as nat
  {
    if |s| >= 2 {
      var t := s[..|s| - 1];
      assert t[0] == s[0];
      assert t[..|t| - 1] == s[..|s| - 2];
      if |s| == 3 {
        assert t[..1][0] == s[0] && t[1] == s[1];
      }
    }
  }

  lemma MatchesOctet(s: string)
    ensures Matches(OCTET, s) <==> Octet(s)
  {
    Matches3(Range('2', '2'), Range('5', '5'), Range('0', '5'), s);
    Matches3(Range('2', '2'), Range('0', '4'), DIGIT, s);
    MatchesLow(s);
    hide Text.DigitsValue;
    if Digits(s) && 1 <= |s| <= 3 {
      ValueOfShort(s);
    }
  }

  // ---------- addresses ----------

  /** Four octets between dots. */
  predicate DottedQuad(s: string) {
    var parts := Text.Split(s, '.');
    |parts| == 4 && Octet(parts[0]) && Octet(parts[1]) && Octet(parts[2]) && Octet(parts[3])
  }

  lemma OctetHasNoDot(s: string)
    requires Octet(s)
    ensures '.' !in s && '/' !in s
  {
  }

  lemma MatchesDot(rest: Regex, s: string)
    ensures Matches(Then(DOT, rest), s) <==> s != "" && s[0] == '.' && Matches(rest, s[1..])
  {
    if Matches(Then(DOT, rest), s) {
      var i :| 0 <= i <= |s| && Matches(DOT, s[..i]) && Matches(rest, s[i..]);
      assert s[0] == s[..i][0];
    }
    if s != "" && s[0] == '.' && Matches(rest, s[1..]) {
      assert Matches(DOT, s[..1]) && Matches(rest, s[1..]);
    }
  }

  /** What follows the first separator. */
  function After(s: string, sep: char): string {
    var n := |Text.Split(s, sep)[0]| + 1;
    if n <= |s| then s[n..] else ""
  }

  /** An octet, a dot and the rest match exactly when the first part is an octet and what follows it matches. */
  lemma MatchesOctetDot(rest: Regex, s: string)
    ensures Matches(Then(OCTET, Then(DOT, rest)), s) <==>
      var parts := Text.Split(s, '.');
      |parts| > 1 && Octet(parts[0]) && Matches(rest, After(s, '.'))
  {
    hide Matches, Octet, Text.Split;
    var r := Then(OCTET, Then(DOT, rest));
    MatchesThen(OCTET, Then(DOT, rest), s);
    Text.SplitFirst(s, '.');
    var parts := Text.Split(s, '.');
    if Matches(r, s) {
      var i :| 0 <= i <= |s| && Matches(OCTET, s[..i]) && Matches(Then(DOT, rest), s[i..]);
      MatchesOctet(s[..i]);
      MatchesDot(rest, s[i..]);
      OctetHasNoDot(s[..i]);
      assert s == s[..i] + ['.'] + s[i + 1..];
      Text.SplitHead(s[..i], s[i + 1..], '.');
      assert s[i..][1..] == s[i + 1..];
    }
    if |parts| > 1 && Octet(parts[0]) && Matches(rest, After(s, '.')) {
      var i := |parts[0]|;
      assert s[..i] == parts[0] && s[i] == '.' && s[i..][1..] == s[i + 1..];
      MatchesOctet(s[..i]);
      MatchesDot(rest, s[i..]);
    }
  }

  /** The pattern accepts exactly four dot-separated runs of one to three digits, each of value at most 255. */
  lemma PatternIsDottedQuad(s: string)
    ensures Matches(IPV4, s) <==> DottedQuad(s)
  {
    hide Matches, Octet, Text.Split;
    var r3 := Then(OCTET, Then(DOT, OCTET));
    var r2 := Then(OCTET, Then(DOT, r3));
    MatchesOctetDot(r2, s);
    Text.SplitFirst(s, '.');
    var p := Text.Split(s, '.');
    if |p| > 1 {
      var s1 := After(s, '.');
      MatchesOctetDot(r3, s1);
      Text.SplitFirst(s1, '.');
      var p1 := Text.Split(s1, '.');
      if |p1| > 1 {
        var s2 := After(s1, '.');
        MatchesOctetDot(OCTET, s2);
        Text.SplitFirst(s2, '.');
        var p2 := Text.Split(s2, '.');
        if |p2| > 1 {
          var s3 := After(s2, '.');
          MatchesOctet(s3);
          Text.SplitFirst(s3, '.');
          LastOctet(s3);
          assert p[1] == p1[0] && p[2..] == p1[1..] && p1[1] == p2[0] && p1[2..] == p2[1..];
        }
      }
    }
  }

  lemma LastOctet(s: string)
    ensures Octet(s) <==> Text.Split(s, '.') == [s] && Octet(Text.Split(s, '.')[0])
  {
    if Octet(s) {
      OctetHasNoDot(s);
      Text.SplitNone(s, '.');
    }
  }

  // ---------- CIDR ----------

  /** `parseInt(s, 10)`: leading blanks, an optional sign, then as many digits as there are; no digits is NaN. */
  function ParseInt(s: string): Option<int> {
    var t := Text.TrimStart(s);
    if t != "" && (t[0] == '+' || t[0] == '-') then
      var n := LeadingDigits(t[1..]);
      if n == "" then None else Some(if t[0] == '-' then -(Text.DigitsValue(n) as int) else Text.DigitsValue(n))
    else
      var n := LeadingDigits(t);
      if n == "" then None else Some(Text.DigitsValue(n))
  }

  function LeadingDigits(s: string): (r: string)
    ensures Digits(r)
  {
    if s != "" && IsDigit(s[0]) then [s[0]] + LeadingDigits(s[1..]) else ""
  }

  predicate IsValidCIDR(s: string) {
    var parts := Text.Split(s, '/');
    |parts| == 2
    && var mask := ParseInt(parts[1]);
       mask.Some? && 0 <= mask.value <= 32 && DottedQuad(parts[0])
  }

  lemma QuadHasNoSlash(ip: string)
    requires DottedQuad(ip)
    ensures '/' !in ip
  {
    Text.SplitJoin(ip, '.');
    var parts := Text.Split(ip, '.');
    forall i | 0 <= i < |parts| ensures '/' !in parts[i] {
      OctetHasNoDot(parts[i]);
    }
    Text.JoinedChars(parts, '.', '/');
  }

  /** No text is both an address and a range. */
  lemma AddressIsNotRange(s: string)
    ensures !(DottedQuad(s) && IsValidCIDR(s))
  {
    if DottedQuad(s) {
      QuadHasNoSlash(s);
      Text.SplitNone(s, '/');
    }
  }

  /** A canonical prefix length after a valid address is accepted; so is one followed by any text without a slash. */
  lemma RangeAccepted(ip: string, n: nat, junk: string)
    requires DottedQuad(ip) && n <= 32 && '/' !in junk && (junk == "" || !IsDigit(junk[0]))
    ensures IsValidCIDR(ip + "/" + (Text.Numeral(n) + junk))
  {
    var mask := Text.Numeral(n) + junk;
    QuadHasNoSlash(ip);
    assert ip + "/" + mask == ip + ['/'] + mask;
    Text.SplitHead(ip, mask, '/');
    assert '/' !in mask;
    Text.SplitNone(mask, '/');
    assert mask[0] == Text.Numeral(n)[0];
    assert Text.TrimStart(mask) == mask;
    DigitsThenJunk(Text.Numeral(n), junk);
    Text.NumeralValue(n);
  }

  lemma {:induction false} DigitsThenJunk(digits: string, junk: string)
    requires Digits(digits) && (junk == "" || !IsDigit(junk[0]))
    ensures LeadingDigits(digits + junk) == digits
  {
    if digits == "" {
      assert digits + junk == junk;
    } else {
      assert (digits + junk)[1..] == digits[1..] + junk;
      DigitsThenJunk(digits[1..], junk);
    }
  }

  // ---------- exactly which ranges are accepted ----------

  /** The parts of what may follow the slash. */
  datatype Mask = Mask(blanks: string, sign: string, digits: string, junk: string)

  function MaskText(m: Mask): string {
    m.blanks + (m.sign + (m.digits + m.junk))
  }

  /** Blanks, a sign, a number of at most 32 (zero after a minus), and anything that does not continue the number. */
  predicate GoodMask(m: Mask) {
    && (forall i :: 0 <= i < |m.blanks| ==> Text.IsSpace(m.blanks[i]))
    && (m.sign == "" || m.sign == "+" || m.sign == "-")
    && m.digits != "" && Digits(m.digits)
    && Text.DigitsValue(m.digits) <= (if m.sign == "-" then 0 else 32)
    && (m.junk == "" || !IsDigit(m.junk[0])) && '/' !in m.junk
  }

  lemma {:induction false} TrimStartSplits(s: string)
    ensures var t := Text.TrimStart(s);
      && |t| <= |s| && s == s[..|s| - |t|] + t
      && (forall i :: 0 <= i < |s| - |t| ==> Text.IsSpace(s[i]))
      && (t == "" || !Text.IsSpace(t[0]))
  {
    if s != "" && Text.IsSpace(s[0]) {
      TrimStartSplits(s[1..]);
      var t := Text.TrimStart(s);
      assert forall i :: 1 <= i < |s| - |t| ==> s[i] == s[1..][i - 1];
      assert s[|s| - |t|..] == s[1..][|s[1..]| - |t|..];
    }
  }

  lemma {:induction false} TrimStartDrops(blanks: string, t: string)
    requires forall i :: 0 <= i < |blanks| ==> Text.IsSpace(blanks[i])
    requires t == "" || !Text.IsSpace(t[0])
    ensures Text.TrimStart(blanks + t) == t
  {
    if blanks == "" {
      assert blanks + t == t;
    } else {
      assert (blanks + t)[1..] == blanks[1..] + t;
      TrimStartDrops(blanks[1..], t);
    }
  }

  lemma {:induction false} LeadingDigitsSplit(s: string)
    ensures var n := LeadingDigits(s);
      && |n| <= |s| && s == n + s[|n|..]
      && (|n| == |s| || !IsDigit(s[|n|]))
  {
    if s != "" && IsDigit(s[0]) {
      LeadingDigitsSplit(s[1..]);
      var n := LeadingDigits(s);
      assert s[1..][|n| - 1..] == s[|n|..];
    }
  }

  lemma MaskParses(m: Mask)
    requires GoodMask(m)
    ensures ParseInt(MaskText(m)).Some? && 0 <= ParseInt(MaskText(m)).value <= 32
  {
    var t := m.sign + (m.digits + m.junk);
    assert t[0] == if m.sign == "" then m.digits[0] else m.sign[0];
    TrimStartDrops(m.blanks, t);
    DigitsThenJunk(m.digits, m.junk);
    if m.sign == "" {
      assert t == m.digits + m.junk;
    } else {
      assert t[1..] == m.digits + m.junk;
    }
  }

  function Sign(t: string): (sign: string)
    ensures |sign| <= |t| && t[..|sign|] == sign
  {
    if t != "" && (t[0] == '+' || t[0] == '-') then t[..1] else ""
  }

  /** The parts of a text, as `parseInt` takes it apart. */
  function Parts(s: string): Mask {
    TrimStartSplits(s);
    var t := Text.TrimStart(s);
    var u := t[|Sign(t)|..];
    LeadingDigitsSplit(u);
    Mask(s[..|s| - |t|], Sign(t), LeadingDigits(u), u[|LeadingDigits(u)|..])
  }

  lemma PartsJoin(s: string)
    ensures var m := Parts(s); MaskText(m) == s && (m.junk == "" || !IsDigit(m.junk[0]))
  {
    hide Text.TrimStart, LeadingDigits, Sign;
    var t := Text.TrimStart(s);
    var u := t[|Sign(t)|..];
    TrimStartSplits(s);
    LeadingDigitsSplit(u);
    assert t == Sign(t) + u;
  }

  lemma PartsAreGood(s: string)
    requires '/' !in s && ParseInt(s).Some? && 0 <= ParseInt(s).value <= 32
    ensures GoodMask(Parts(s)) && MaskText(Parts(s)) == s
  {
    hide Text.DigitsValue, LeadingDigits, Text.TrimStart, MaskText, Text.IsSpace, Sign;
    var m := Parts(s);
    PartsJoin(s);
    TrimStartSplits(s);
    JunkInMask(m);
    SignIs(Text.TrimStart(s));
  }

  lemma SignIs(t: string)
    ensures Sign(t) == (if t != "" && (t[0] == '+' || t[0] == '-') then [t[0]] else "")
  {
  }

  lemma JunkInMask(m: Mask)
    ensures forall c :: c in m.junk ==> c in MaskText(m)
  {
  }

  ghost predicate RangeOf(s: string, ip: string, m: Mask) {
    DottedQuad(ip) && GoodMask(m) && s == ip + "/" + MaskText(m)
  }

  lemma MaskHasNoSlash(m: Mask)
    requires GoodMask(m)
    ensures '/' !in MaskText(m)
  {
  }

  /** A text is accepted as a range exactly when it is an address, a slash, and a good mask. */
  lemma RangeIff(s: string)
    ensures IsValidCIDR(s) <==> exists ip, m :: RangeOf(s, ip, m)
  {
    hide GoodMask, DottedQuad, MaskText, Parts, ParseInt;
    if IsValidCIDR(s) {
      var parts := Text.Split(s, '/');
      Text.SplitFirst(s, '/');
      Text.SplitJoin(s, '/');
      Text.SplitFirst(s[|parts[0]| + 1..], '/');
      assert s == parts[0] + "/" + parts[1];
      PartsAreGood(parts[1]);
      assert RangeOf(s, parts[0], Parts(parts[1]));
    }
    if ip, m :| RangeOf(s, ip, m) {
      RangeSplits(s, ip, MaskText(m), m);
      MaskParses(m);
    }
  }

  lemma RangeSplits(s: string, ip: string, mask: string, m: Mask)
    requires DottedQuad(ip) && GoodMask(m) && mask == MaskText(m) && s == ip + "/" + mask
    ensures Text.Split(s, '/') == [ip, mask]
  {
    hide Text.Split, GoodMask;
    QuadHasNoSlash(ip);
    MaskHasNoSlash(m);
    assert s == ip + ['/'] + mask;
    Text.SplitHead(ip, mask, '/');
    Text.SplitNone(mask, '/');
  }

  /** Texts that are hardly ranges and are accepted, and two that are not. */
  lemma OddRanges()
    ensures IsValidCIDR("1.2.3.4/8x") && IsValidCIDR("1.2.3.4/ +008")
    ensures !IsValidCIDR("1.2.3.4/-8") && !IsValidCIDR("1.2.3.4/8/9")
  {
    SomeAddress();
    OddMasks();
    hide DottedQuad, IsValidCIDR;
    MaskAccepted("1.2.3.4", Mask("", "", "8", "x"));
    MaskAccepted("1.2.3.4", Mask(" ", "+", "008", ""));
    NegativeMask("1.2.3.4");
    TwoSlashes("1.2.3.4");
    assert "1.2.3.4" + "/-8" == "1.2.3.4/-8" && "1.2.3.4" + "/8/9" == "1.2.3.4/8/9";
    assert "1.2.3.4" + "/" + "8x" == "1.2.3.4/8x" && "1.2.3.4" + "/" + " +008" == "1.2.3.4/ +008";
  }

  lemma OddMasks()
    ensures GoodMask(Mask("", "", "8", "x")) && MaskText(Mask("", "", "8", "x")) == "8x"
    ensures GoodMask(Mask(" ", "+", "008", "")) && MaskText(Mask(" ", "+", "008", "")) == " +008"
  {
    EightIs();
  }

  lemma MaskAccepted(ip: string, m: Mask)
    requires DottedQuad(ip) && GoodMask(m)
    ensures IsValidCIDR(ip + "/" + MaskText(m))
  {
    hide DottedQuad, GoodMask, MaskText, IsValidCIDR;
    assert RangeOf(ip + "/" + MaskText(m), ip, m);
    RangeIff(ip + "/" + MaskText(m));
  }

  lemma SomeAddress()
    ensures DottedQuad("1.2.3.4")
  {
    hide Text.Split;
    Text.SplitHead("1", "2.3.4", '.');
    Text.SplitHead("2", "3.4", '.');
    Text.SplitHead("3", "4", '.');
    Text.SplitNone("4", '.');
    assert "1" + ['.'] + "2.3.4" == "1.2.3.4" && "2" + ['.'] + "3.4" == "2.3.4" && "3" + ['.'] + "4" == "3.4";
    ValueOfShort("1");
    ValueOfShort("2");
    ValueOfShort("3");
    ValueOfShort("4");
  }

  lemma EightIs()
    ensures Digits("8") && Text.DigitsValue("8") == 8 && Digits("008") && Text.DigitsValue("008") == 8
  {
    ValueOfShort("8");
    ValueOfShort("008");
  }

  lemma NegativeMask(ip: string)
    requires DottedQuad(ip)
    ensures !IsValidCIDR(ip + "/-8")
  {
    QuadHasNoSlash(ip);
    Text.SplitHead(ip, "-8", '/');
    Text.SplitNone("-8", '/');
    assert ip + ['/'] + "-8" == ip + "/-8";
    EightIs();
    DigitsThenJunk("8", "");
    assert "8" + "" == "8" && "-8"[1..] == "8";
    assert Text.TrimStart("-8") == "-8";
    assert ParseInt("-8") == Some(-8);
  }

  lemma TwoSlashes(ip: string)
    requires DottedQuad(ip)
    ensures !IsValidCIDR(ip + "/8/9")
  {
    QuadHasNoSlash(ip);
    Text.SplitHead(ip, "8/9", '/');
    Text.SplitHead("8", "9", '/');
    assert ip + ['/'] + "8/9" == ip + "/8/9" && "8" + ['/'] + "9" == "8/9";
  }

  // ---------- canonical ranges among them ----------

  /** A number without leading zeros. */
  predicate Canonical(s: string) {
    s != "" && Digits(s) && (|s| == 1 || s[0] != '0')
  }

  lemma {:induction false} CanonicalIsNumeral(s: string)
    requires Canonical(s)
    ensures s == Text.Numeral(Text.DigitsValue(s))
    ensures |s| > 1 ==> Text.DigitsValue(s) >= 10
  {
    hide Text.DigitsValue, Text.Numeral;
    var n := |s| - 1;
    LastDigit(s);
    if n == 0 {
      NumeralEnds(0, s[0]);
      assert s == [s[0]];
    } else {
      CanonicalIsNumeral(s[..n]);
      LeadingDigit(s[..n]);
      NumeralEnds(Text.DigitsValue(s[..n]), s[n]);
      assert s == s[..n] + [s[n]];
    }
  }

  lemma LastDigit(s: string)
    requires Digits(s) && s != ""
    ensures var front := s[..|s| - 1];
      Digits(front) && Text.DigitsValue(s) == 10 * Text.DigitsValue(front) + (s[|s| - 1] - '0') as nat
    ensures |s| == 1 ==> Text.DigitsValue(s) == (s[0] - '0') as nat
  {
  }

  lemma LeadingDigit(s: string)
    requires Canonical(s) && s[0] != '0' && (|s| > 1 ==> Text.DigitsValue(s) >= 10)
    ensures Text.DigitsValue(s) >= 1
  {
    LastDigit(s);
  }

  lemma NumeralEnds(n: nat, last: char)
    requires IsDigit(last)
    ensures Text.Numeral(10 * n + (last - '0') as nat) == (if n == 0 then "" else Text.Numeral(n)) + [last]
  {
    var m := 10 * n + (last - '0') as nat;
    assert m / 10 == n && m % 10 == (last - '0') as nat;
    assert '0' + (m % 10) as char == last;
  }

  lemma {:induction false} NumeralIsCanonical(n: nat)
    ensures Canonical(Text.Numeral(n))
    ensures n > 0 ==> Text.Numeral(n)[0] != '0'
  {
    if n >= 10 {
      NumeralIsCanonical(n / 10);
    }
  }

  ghost predicate CanonicalRange(s: string, ip: string, n: nat) {
    DottedQuad(ip) && n <= 32 && s == ip + "/" + Text.Numeral(n)
  }

  /** An accepted text is an address with a prefix length exactly when what follows the slash is a canonical number. */
  lemma CanonicalIff(s: string)
    requires IsValidCIDR(s)
    ensures (exists ip, n :: CanonicalRange(s, ip, n)) <==> Canonical(Text.Split(s, '/')[1])
  {
    hide DottedQuad, GoodMask, Canonical, Digits;
    if ip, n :| CanonicalRange(s, ip, n) {
      NumeralIsCanonical(n);
      NumeralSplits(s, ip, n);
    }
    var parts := Text.Split(s, '/');
    if Canonical(parts[1]) {
      Text.SplitFirst(s, '/');
      Text.SplitJoin(s, '/');
      Text.SplitFirst(s[|parts[0]| + 1..], '/');
      CanonicalIsNumeral(parts[1]);
      CanonicalParses(parts[1]);
      assert CanonicalRange(s, parts[0], Text.DigitsValue(parts[1]));
    }
  }

  lemma NumeralSplits(s: string, ip: string, n: nat)
    requires CanonicalRange(s, ip, n)
    ensures Text.Split(s, '/') == [ip, Text.Numeral(n)]
  {
    hide DottedQuad, Text.DigitsValue, Text.Split;
    var m := Mask("", "", Text.Numeral(n), "");
    Text.NumeralValue(n);
    assert MaskText(m) == Text.Numeral(n);
    assert GoodMask(m);
    hide GoodMask, MaskText, Text.Numeral;
    RangeSplits(s, ip, Text.Numeral(n), m);
  }

  lemma CanonicalParses(s: string)
    requires Canonical(s)
    ensures Digits(s) && ParseInt(s) == Some(Text.DigitsValue(s))
  {
    DigitsThenJunk(s, "");
    assert s + "" == s;
    assert Text.TrimStart(s) == s;
  }

  // ---------- lists ----------

  datatype Kind = IPv4 | CIDR | Invalid
  datatype Rejected = Rejected(ip: string, error: string)

  function KindOf(input: string): Kind {
    var t := Text.Trim(input);
    if t == "" then Invalid else if DottedQuad(t) then IPv4 else if IsValidCIDR(t) then CIDR else Invalid
  }

  function ErrorOf(input: string): string {
    if Text.Trim(input) == "" then "IP address cannot be empty"
    else "Invalid IP address or CIDR notation (e.g., 192.168.1.1 or 192.168.1.0/24)"
  }

  function ValidOf(ips: seq<string>): seq<string> {
    if ips == [] then []
    else
      var last := ips[|ips| - 1];
      ValidOf(ips[..|ips| - 1]) + (if KindOf(last).Invalid? then [] else [Text.Trim(last)])
  }

  function InvalidOf(ips: seq<string>): seq<Rejected> {
    if ips == [] then []
    else
      var last := ips[|ips| - 1];
      InvalidOf(ips[..|ips| - 1])
        + (if KindOf(last).Invalid? then [Rejected(Text.Trim(last), ErrorOf(last))] else [])
  }

  /** An input that is an address or a range, once trimmed, is among the valid ones; any other is rejected with its error. */
  ghost predicate Sorted(input: string, valid: seq<string>, invalid: seq<Rejected>) {
    var t := Text.Trim(input);
    if DottedQuad(t) || IsValidCIDR(t) then t in valid
    else if t == "" then Rejected(t, "IP address cannot be empty") in invalid
    else Rejected(t, "Invalid IP address or CIDR notation (e.g., 192.168.1.1 or 192.168.1.0/24)") in invalid
  }

  lemma KindIs(input: string)
    ensures var t := Text.Trim(input);
      && (KindOf(input).Invalid? <==> !DottedQuad(t) && !IsValidCIDR(t))
      && (KindOf(input).IPv4? <==> DottedQuad(t))
  {
    assert !DottedQuad("") && !IsValidCIDR("");
    hide Text.Trim, DottedQuad, IsValidCIDR;
  }

  lemma {:induction false} GoesTo(ips: seq<string>, input: string)
    requires input in ips
    ensures Sorted(input, ValidOf(ips), InvalidOf(ips))
  {
    hide Text.Trim, DottedQuad, IsValidCIDR;
    var front, last := ips[..|ips| - 1], ips[|ips| - 1];
    KindIs(input);
    hide KindOf;
    if input != last {
      assert ips == front + [last];
      GoesTo(front, input);
    }
  }

  lemma AllGo(ips: seq<string>)
    ensures forall s :: s in ips ==> Sorted(s, ValidOf(ips), InvalidOf(ips))
  {
    hide Sorted;
    forall s | s in ips ensures Sorted(s, ValidOf(ips), InvalidOf(ips)) {
      GoesTo(ips, s);
    }
  }

  method ValidateIPList(ips: seq<string>) returns (valid: seq<string>, invalid: seq<Rejected>)
    ensures valid == ValidOf(ips) && invalid == InvalidOf(ips)
    ensures |valid| + |invalid| == |ips|
    ensures forall x :: x in valid ==> DottedQuad(x) != IsValidCIDR(x)
    ensures forall s :: s in ips ==> Sorted(s, valid, invalid)
  {
    AllGo(ips);
    hide KindOf, ErrorOf, Text.Trim, Sorted, DottedQuad, IsValidCIDR;
    valid, invalid := [], [];
    for i := 0 to |ips|
      invariant valid == ValidOf(ips[..i]) && invalid == InvalidOf(ips[..i])
      invariant |valid| + |invalid| == i
      invariant forall x :: x in valid ==> DottedQuad(x) != IsValidCIDR(x)
    {
      assert ips[..i + 1][..i] == ips[..i];
      if KindOf(ips[i]).Invalid? {
        invalid := invalid + [Rejected(Text.Trim(ips[i]), ErrorOf(ips[i]))];
      } else {
        ValidIsOne(ips[i]);
        valid := valid + [Text.Trim(ips[i])];
      }
    }
    assert ips[..|ips|] == ips;
  }

  lemma ValidIsOne(input: string)
    requires !KindOf(input).Invalid?
    ensures DottedQuad(Text.Trim(input)) != IsValidCIDR(Text.Trim(input))
  {
    AddressIsNotRange(Text.Trim(input));
  }

  /** Where the n-th input went: its place in its list is the number of earlier inputs of the same fate. */
  lemma {:induction false} PartitionKeepsOrder(ips: seq<string>, n: nat)
    requires n < |ips|
    ensures var before := ips[..n];
      && |ValidOf(before)| + |InvalidOf(before)| == n
      && (KindOf(ips[n]).Invalid? ==>
        |InvalidOf(before)| < |InvalidOf(ips)| && InvalidOf(ips)[|InvalidOf(before)|] == Rejected(Text.Trim(ips[n]), ErrorOf(ips[n])))
      && (!KindOf(ips[n]).Invalid? ==>
        |ValidOf(before)| < |ValidOf(ips)| && ValidOf(ips)[|ValidOf(before)|] == Text.Trim(ips[n]))
    decreases |ips|
  {
    hide KindOf, ErrorOf, Text.Trim;
    var front := ips[..|ips| - 1];
    if n < |front| {
      PartitionKeepsOrder(front, n);
      assert front[..n] == ips[..n] && front[n] == ips[n];
    } else {
      assert ips[..n] == front;
      if n > 0 {
        PartitionKeepsOrder(front, n - 1);
        assert front[..n - 1] == front[..|front| - 1];
      }
    }
  }
}
