/** Batch renaming: generated names, and which rows of the preview conflict. */
module BatchRename {
  import opened LowerCase

  // ---- Numbers as text --------------------------------------------------------------------

  predicate IsDigit(c: char) { '0' <= c <= '9' }

  predicate AllDigits(s: string) {
    forall i :: 0 <= i < |s| ==> IsDigit(s[i])
  }

  function DigitChar(d: nat): (c: char)
    requires d < 10
    ensures IsDigit(c)
  {
    ('0' as int + d) as char
  }

  function Decimal(n: nat): (s: string)
    ensures s != ""
  {
    if n < 10 then [DigitChar(n)] else Decimal(n / 10) + [DigitChar(n % 10)]
  }

  function Zeros(k: nat): string {
    seq(k, i => '0')
  }

  /** Padded with zeros on the left to at least `width` characters. */
  function NumberText(n: nat, width: nat): (s: string)
    ensures s != ""
  {
    var digits := Decimal(n);
    if |digits| < width then Zeros(width - |digits|) + digits else digits
  }

  function Value(s: string): nat
    requires AllDigits(s)
  {
    if s == "" then 0 else Value(s[..|s| - 1]) * 10 + (s[|s| - 1] as int - '0' as int)
  }

  lemma {:induction false} DecimalValue(n: nat)
    ensures AllDigits(Decimal(n)) && Value(Decimal(n)) == n
  {
    if n >= 10 {
      DecimalValue(n / 10);
      assert Decimal(n)[..|Decimal(n)| - 1] == Decimal(n / 10);
    } else {
      assert Decimal(n)[..0] == "";
    }
  }

  lemma {:induction false} ZerosKeepValue(k: nat, s: string)
    requires AllDigits(s)
    ensures AllDigits(Zeros(k) + s) && Value(Zeros(k) + s) == Value(s)
    decreases |s|, k
  {
    var all := Zeros(k) + s;
    if s != "" {
      var init := s[..|s| - 1];
      assert all[..|all| - 1] == Zeros(k) + init;
      ZerosKeepValue(k, init);
    } else if k > 0 {
      assert all[..|all| - 1] == Zeros(k - 1) + "";
      ZerosKeepValue(k - 1, "");
    } else {
      assert all == "";
    }
  }

  /** The number can be read back from its text, whatever the padding. */
  lemma NumberReadsBack(n: nat, width: nat)
    ensures AllDigits(NumberText(n, width)) && Value(NumberText(n, width)) == n
  {
    DecimalValue(n);
    if |Decimal(n)| < width {
      ZerosKeepValue(width - |Decimal(n)|, Decimal(n));
    }
  }

  lemma {:induction false} NoLeadingZero(n: nat)
    ensures Decimal(n)[0] == '0' <==> n == 0
  {
    if n >= 10 {
      NoLeadingZero(n / 10);
    }
  }

  /** The text is as wide as asked for, and wider only for digits the number needs. */
  lemma NumberIsPadded(n: nat, width: nat)
    ensures |NumberText(n, width)| >= width
    ensures |NumberText(n, width)| > width && |NumberText(n, width)| > 1 ==> NumberText(n, width)[0] != '0'
  {
    NoLeadingZero(n);
    if n == 0 {
      assert Decimal(0) == "0";
    }
  }

  // ---- Names ---------------------------------------------------------------------------------

  datatype NumberPosition = Suffix | Prefix

  datatype NumberSeparator = Parentheses | Underscore | Dash | Space | NoSeparator

  function ExtensionSuffix(ext: string): string {
    if ext == "" then "" else "." + ext
  }

  function BuildNewName(position: NumberPosition, separator: NumberSeparator, base: string, num: string, ext: string): string {
    var tail := ExtensionSuffix(ext);
    match (position, separator)
    case (Suffix, Parentheses) => base + " (" + num + ")" + tail
    case (Suffix, Underscore) => base + "_" + num + tail
    case (Suffix, Dash) => base + "-" + num + tail
    case (Suffix, Space) => base + " " + num + tail
    case (Suffix, NoSeparator) => base + num + tail
    case (Prefix, Parentheses) => "(" + num + ") " + base + tail
    case (Prefix, Underscore) => num + "_" + base + tail
    case (Prefix, Dash) => num + "-" + base + tail
    case (Prefix, Space) => num + " " + base + tail
    case (Prefix, NoSeparator) => num + base + tail
  }

  predicate DotFree(ext: string) { '.' !in ext }

  predicate EndsNumber(rest: string) {
    rest == "" || !IsDigit(rest[0])
  }

  /** Digits followed by something that is not a digit can be told apart. */
  lemma NumberEnds(before: string, a: string, b: string, restA: string, restB: string)
    requires AllDigits(a) && AllDigits(b) && EndsNumber(restA) && EndsNumber(restB)
    requires before + a + restA == before + b + restB
    ensures a == b
  {
    var s, t := before + a + restA, before + b + restB;
    var p := |before|;
    if |a| < |b| {
      DifferInside(before, a, restA, before, b, restB);
    } else if |b| < |a| {
      DifferInside(before, b, restB, before, a, restA);
    } else {
      assert s[p..p + |a|] == a && t[p..p + |b|] == b;
    }
  }

  lemma DifferInside(before: string, a: string, restA: string, before': string, b: string, restB: string)
    requires before == before' && |a| < |b| && AllDigits(b) && EndsNumber(restA)
    ensures before + a + restA != before' + b + restB
  {
    var s, t, i := before + a + restA, before' + b + restB, |before| + |a|;
    assert t[i] == b[|a|];
    if |s| == |t| {
      assert s[i] == restA[0];
    }
  }

  // ---- A number in front of a base that may itself start with digits ------------------------------

  /** `base` starts with the given digits and repeats itself at their distance. */
  ghost predicate Repeats(base: string, digits: string) {
    forall j {:trigger base[j]} :: 0 <= j < |base| ==> base[j] == (if j < |digits| then digits[j] else base[j - |digits|])
  }

  /** So it consists of digits only. */
  lemma {:induction false} BaseRepeats(base: string, digits: string, i: nat)
    requires digits != "" && AllDigits(digits) && i < |base| && Repeats(base, digits)
    ensures IsDigit(base[i])
    decreases i
  {
    assert base[i] == (if i < |digits| then digits[i] else base[i - |digits|]);
    if i >= |digits| {
      BaseRepeats(base, digits, i - |digits|);
    }
  }

  function NumberFirst(num: string, base: string, ext: string): string {
    num + base + ExtensionSuffix(ext)
  }

  lemma CharacterAt(num: string, base: string, ext: string, i: nat)
    requires DotFree(ext) && i < |NumberFirst(num, base, ext)|
    ensures i < |num| ==> NumberFirst(num, base, ext)[i] == num[i]
    ensures |num| <= i < |num| + |base| ==> NumberFirst(num, base, ext)[i] == base[i - |num|]
    ensures i == |num| + |base| ==> NumberFirst(num, base, ext)[i] == '.'
    ensures i > |num| + |base| ==> NumberFirst(num, base, ext)[i] != '.'
  {
    var front := num + base;
    if i > |front| {
      assert NumberFirst(num, base, ext)[i] == ext[i - |front| - 1];
    }
  }

  lemma RepeatsAt(base: string, a: string, b: string, extA: string, extB: string, name: string, j: nat)
    requires |a| < |b| && DotFree(extA) && DotFree(extB) && j < |base|
    requires name == NumberFirst(a, base, extA) && name == NumberFirst(b, base, extB)
    ensures base[j] == (if |a| + j < |b| then b[|a| + j] else base[|a| + j - |b|])
  {
    CharacterAt(a, base, extA, |a| + j);
    CharacterAt(b, base, extB, |a| + j);
  }

  /** Two readings of one name with numbers of different length make the base repeat itself. */
  lemma ReadingsRepeat(base: string, a: string, b: string, extA: string, extB: string, name: string, digits: string)
    requires |a| < |b| && DotFree(extA) && DotFree(extB) && digits == b[|a|..]
    requires name == NumberFirst(a, base, extA) && name == NumberFirst(b, base, extB)
    ensures Repeats(base, digits)
  {
    forall j {:trigger base[j]} | 0 <= j < |base| ensures base[j] == (if j < |digits| then digits[j] else base[j - |digits|]) {
      RepeatsAt(base, a, b, extA, extB, name, j);
    }
  }

  /** A shorter number would need a longer extension; then the last dot of the name cannot fit both readings. */
  lemma ShorterNumber(base: string, a: string, b: string, extA: string, extB: string)
    requires AllDigits(a) && AllDigits(b) && |a| < |b| && DotFree(extA) && DotFree(extB)
    ensures NumberFirst(a, base, extA) != NumberFirst(b, base, extB)
  {
    if NumberFirst(a, base, extA) == NumberFirst(b, base, extB) {
      ReadingsRepeat(base, a, b, extA, extB, NumberFirst(a, base, extA), b[|a|..]);
      LengthsAgree(base, a, b, extA, extB);
      DotContradicts(base, a, b, extA, extB);
    }
  }

  lemma LengthsAgree(base: string, a: string, b: string, extA: string, extB: string)
    requires |NumberFirst(a, base, extA)| == |NumberFirst(b, base, extB)| && |a| < |b|
    ensures |a| + |base| < |NumberFirst(a, base, extA)|
    ensures extB != "" ==> |b| + |base| < |NumberFirst(b, base, extB)|
    ensures extB == "" ==> |b| + |base| == |NumberFirst(b, base, extB)|
  {
  }

  /** Reading one: a dot right behind the base. Reading two: its dot comes later, or that place is a digit. */
  lemma DotContradicts(base: string, a: string, b: string, extA: string, extB: string)
    requires AllDigits(b) && |a| < |b| && DotFree(extA) && DotFree(extB) && Repeats(base, b[|a|..])
    requires |a| + |base| < |NumberFirst(a, base, extA)|
    requires extB != "" ==> |b| + |base| < |NumberFirst(b, base, extB)|
    requires extB == "" ==> |b| + |base| == |NumberFirst(b, base, extB)|
    ensures NumberFirst(a, base, extA) != NumberFirst(b, base, extB)
  {
    if extB != "" {
      LaterDot(base, a, b, extA, extB);
    } else {
      CharacterAt(a, base, extA, |a| + |base|);
      DigitThere(base, a, b);
    }
  }

  lemma LaterDot(base: string, a: string, b: string, extA: string, extB: string)
    requires |a| < |b| && DotFree(extA) && DotFree(extB) && |b| + |base| < |NumberFirst(b, base, extB)|
    ensures NumberFirst(a, base, extA) != NumberFirst(b, base, extB)
  {
    var i := |b| + |base|;
    CharacterAt(b, base, extB, i);
    if i < |NumberFirst(a, base, extA)| {
      CharacterAt(a, base, extA, i);
    }
  }

  lemma DigitThere(base: string, a: string, b: string)
    requires AllDigits(b) && |a| < |b| && Repeats(base, b[|a|..])
    ensures IsDigit(NumberFirst(b, base, "")[|a| + |base|])
  {
    CharacterAt(b, base, "", |a| + |base|);
    if |a| + |base| >= |b| {
      BaseRepeats(base, b[|a|..], |a| + |base| - |b|);
    }
  }

  lemma PrefixNumber(base: string, a: string, b: string, extA: string, extB: string)
    requires AllDigits(a) && AllDigits(b) && DotFree(extA) && DotFree(extB)
    requires a + base + ExtensionSuffix(extA) == b + base + ExtensionSuffix(extB)
    ensures a == b
  {
    if |a| < |b| {
      ShorterNumber(base, a, b, extA, extB);
    } else if |b| < |a| {
      ShorterNumber(base, b, a, extB, extA);
    } else {
      var s, t := a + base + ExtensionSuffix(extA), b + base + ExtensionSuffix(extB);
      assert s[..|a|] == a && t[..|b|] == b;
    }
  }

  // ---- All ten templates -------------------------------------------------------------------------

  /** What stands before the number. */
  function Front(position: NumberPosition, separator: NumberSeparator, base: string): string {
    match (position, separator)
    case (Suffix, Parentheses) => base + " ("
    case (Suffix, Underscore) => base + "_"
    case (Suffix, Dash) => base + "-"
    case (Suffix, Space) => base + " "
    case (Suffix, NoSeparator) => base
    case (Prefix, Parentheses) => "("
    case (Prefix, _) => ""
  }

  /** What stands behind the number. */
  function Back(position: NumberPosition, separator: NumberSeparator, base: string, ext: string): string {
    var tail := ExtensionSuffix(ext);
    match (position, separator)
    case (Suffix, Parentheses) => ")" + tail
    case (Suffix, _) => tail
    case (Prefix, Parentheses) => ") " + base + tail
    case (Prefix, Underscore) => "_" + base + tail
    case (Prefix, Dash) => "-" + base + tail
    case (Prefix, Space) => " " + base + tail
    case (Prefix, NoSeparator) => base + tail
  }

  lemma NameParts(position: NumberPosition, separator: NumberSeparator, base: string, num: string, ext: string)
    ensures BuildNewName(position, separator, base, num, ext) == Front(position, separator, base) + num + Back(position, separator, base, ext)
  {
    var tail := ExtensionSuffix(ext);
    match (position, separator)
    case (Suffix, Parentheses) => assert base + " (" + num + ")" + tail == (base + " (") + num + (")" + tail);
    case (Suffix, _) =>
    case (Prefix, Parentheses) => assert "(" + num + ") " + base + tail == "(" + num + (") " + base + tail);
    case (Prefix, Underscore) => assert num + "_" + base + tail == "" + num + ("_" + base + tail);
    case (Prefix, Dash) => assert num + "-" + base + tail == "" + num + ("-" + base + tail);
    case (Prefix, Space) => assert num + " " + base + tail == "" + num + (" " + base + tail);
    case (Prefix, NoSeparator) => assert num + base + tail == "" + num + (base + tail);
  }

  /** One name per template. */
  lemma NamesByTemplate()
    ensures BuildNewName(Suffix, Parentheses, "photo", "07", "jpg") == "photo (07).jpg"
    ensures BuildNewName(Suffix, Underscore, "photo", "07", "jpg") == "photo_07.jpg"
    ensures BuildNewName(Suffix, Dash, "photo", "07", "jpg") == "photo-07.jpg"
    ensures BuildNewName(Suffix, Space, "photo", "07", "jpg") == "photo 07.jpg"
    ensures BuildNewName(Suffix, NoSeparator, "photo", "07", "jpg") == "photo07.jpg"
    ensures BuildNewName(Prefix, Parentheses, "photo", "07", "jpg") == "(07) photo.jpg"
    ensures BuildNewName(Prefix, Underscore, "photo", "07", "jpg") == "07_photo.jpg"
    ensures BuildNewName(Prefix, Dash, "photo", "07", "jpg") == "07-photo.jpg"
    ensures BuildNewName(Prefix, Space, "photo", "07", "jpg") == "07 photo.jpg"
    ensures BuildNewName(Prefix, NoSeparator, "photo", "07", "") == "07photo"
  {
  }

  /** In each template the number decides the name: equal names have equal numbers, whatever the extensions. */
  lemma TemplatesAreInjective(position: NumberPosition, separator: NumberSeparator, base: string, a: string, b: string, extA: string, extB: string)
    requires AllDigits(a) && AllDigits(b) && DotFree(extA) && DotFree(extB)
    requires BuildNewName(position, separator, base, a, extA) == BuildNewName(position, separator, base, b, extB)
    ensures a == b
  {
    if position.Prefix? && separator.NoSeparator? {
      PrefixNumber(base, a, b, extA, extB);
    } else {
      NameParts(position, separator, base, a, extA);
      NameParts(position, separator, base, b, extB);
      NumberEnds(Front(position, separator, base), a, b, Back(position, separator, base, extA), Back(position, separator, base, extB));
    }
  }

  // ---- Comparison without case ---------------------------------------------------------------------

  /**
    Lower case, character by character: it leaves digits and the punctuation of the templates
    alone, never drops a character, and makes no dots of other characters.
   */
  ghost predicate LowersNames(lower: char -> string) {
    && (forall c {:trigger lower(c)} :: lower(c) != "" && (c != '.' ==> '.' !in lower(c)))
    && (forall c {:trigger lower(c)} :: IsDigit(c) || c in " ()_-.\\" ==> lower(c) == [c])
  }

  predicate Fixed(s: string) {
    forall i :: 0 <= i < |s| ==> IsDigit(s[i]) || s[i] in " ()_-.\\"
  }

  lemma {:induction false} LoweredFixed(lower: char -> string, s: string)
    requires LowersNames(lower) && Fixed(s)
    ensures Lowered(lower, s) == s
    decreases s
  {
    if s != "" {
      LoweredFixed(lower, s[..|s| - 1]);
      assert s == s[..|s| - 1] + [s[|s| - 1]];
    }
  }

  lemma {:induction false} LoweredDotFree(lower: char -> string, ext: string)
    requires LowersNames(lower) && DotFree(ext)
    ensures DotFree(Lowered(lower, ext)) && (ext == "" <==> Lowered(lower, ext) == "")
    decreases ext
  {
    if ext != "" {
      assert ext[|ext| - 1] in ext;
      LoweredDotFree(lower, ext[..|ext| - 1]);
    }
  }

  lemma LoweredTail(lower: char -> string, ext: string)
    requires LowersNames(lower) && DotFree(ext)
    ensures Lowered(lower, ExtensionSuffix(ext)) == ExtensionSuffix(Lowered(lower, ext))
  {
    LoweredDotFree(lower, ext);
    if ext != "" {
      LoweredConcat(lower, ".", ext);
      LoweredFixed(lower, ".");
    }
  }

  lemma LoweredFront(lower: char -> string, position: NumberPosition, separator: NumberSeparator, base: string)
    requires LowersNames(lower)
    ensures Lowered(lower, Front(position, separator, base)) == Front(position, separator, Lowered(lower, base))
  {
    var mark := if position.Prefix? then Front(position, separator, "") else Front(position, separator, base)[|base|..];
    LoweredFixed(lower, mark);
    LoweredConcat(lower, base, mark);
    assert position.Suffix? ==> Front(position, separator, base) == base + mark;
    assert position.Suffix? ==> Front(position, separator, Lowered(lower, base)) == Lowered(lower, base) + mark;
  }

  function Middle(position: NumberPosition, separator: NumberSeparator): string {
    match (position, separator)
    case (Suffix, Parentheses) => ")"
    case (Suffix, _) => ""
    case (Prefix, Parentheses) => ") "
    case (Prefix, Underscore) => "_"
    case (Prefix, Dash) => "-"
    case (Prefix, Space) => " "
    case (Prefix, NoSeparator) => ""
  }

  lemma BackParts(position: NumberPosition, separator: NumberSeparator, base: string, ext: string)
    ensures Back(position, separator, base, ext) ==
      Middle(position, separator) + (if position.Prefix? then base else "") + ExtensionSuffix(ext)
  {
    assert "" + base == base && "" + ExtensionSuffix(ext) == ExtensionSuffix(ext);
    assert Middle(position, separator) + "" == Middle(position, separator);
  }

  lemma LoweredBack(lower: char -> string, position: NumberPosition, separator: NumberSeparator, base: string, ext: string)
    requires LowersNames(lower) && DotFree(ext)
    ensures Lowered(lower, Back(position, separator, base, ext)) == Back(position, separator, Lowered(lower, base), Lowered(lower, ext))
  {
    var middle, part := Middle(position, separator), if position.Prefix? then base else "";
    BackParts(position, separator, base, ext);
    BackParts(position, separator, Lowered(lower, base), Lowered(lower, ext));
    LoweredConcat(lower, middle + part, ExtensionSuffix(ext));
    LoweredConcat(lower, middle, part);
    LoweredFixed(lower, middle);
    LoweredTail(lower, ext);
  }

  /** The lower-case form of a generated name is the name generated from lower-case parts. */
  lemma LoweredName(lower: char -> string, position: NumberPosition, separator: NumberSeparator, base: string, num: string, ext: string)
    requires LowersNames(lower) && AllDigits(num) && DotFree(ext)
    ensures Lowered(lower, BuildNewName(position, separator, base, num, ext)) ==
      BuildNewName(position, separator, Lowered(lower, base), num, Lowered(lower, ext))
  {
    NameParts(position, separator, base, num, ext);
    NameParts(position, separator, Lowered(lower, base), num, Lowered(lower, ext));
    LoweredConcat(lower, Front(position, separator, base) + num, Back(position, separator, base, ext));
    LoweredConcat(lower, Front(position, separator, base), num);
    LoweredFixed(lower, num);
    LoweredFront(lower, position, separator, base);
    LoweredBack(lower, position, separator, base, ext);
  }
}
