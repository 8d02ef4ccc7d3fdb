/** Path components that are safe by construction, and the run identities built from them:
    a length budget argued across two modules. */
module Naming {
  import opened Characters
  import opened Outcomes

  const MaxComponentLength: nat := 100
  const QualificationIdMaxLength: nat := 68
  const DefaultFallback: string := "topology"

  // ----- safe_name_component -----

  predicate IsLetter(c: char) {
    'A' <= c <= 'Z' || 'a' <= c <= 'z'
  }

  predicate IsPunctuation(c: char) {
    c == '.' || c == '_' || c == '-'
  }

  predicate IsAllowed(c: char) {
    IsLetter(c) || IsDigit(c) || IsPunctuation(c)
  }

  /** The characters `str.strip` removes. */
  predicate IsSpace(c: char) {
    var n := c as int;
    || 0x09 <= n <= 0x0D || 0x1C <= n <= 0x20 || n == 0x85 || n == 0xA0 || n == 0x1680
    || 0x2000 <= n <= 0x200A || n == 0x2028 || n == 0x2029 || n == 0x202F || n == 0x205F || n == 0x3000
  }

  function StripLeft(s: string): string {
    if s != "" && IsSpace(s[0]) then StripLeft(s[1..]) else s
  }

  function StripRight(s: string): string {
    if s != "" && IsSpace(s[|s| - 1]) then StripRight(s[..|s| - 1]) else s
  }

  function Sanitise(s: string): string {
    seq(|s|, i requires 0 <= i < |s| => if IsAllowed(s[i]) then s[i] else '_')
  }

  function Clean(name: string): string {
    Sanitise(StripRight(StripLeft(name)))
  }

  /** Nothing is left after stripping dots, underscores and hyphens. */
  predicate IsBlank(s: string) {
    forall i | 0 <= i < |s| :: IsPunctuation(s[i])
  }

  function Stem(s: string): string {
    if s == "" || s[0] == '.' then "" else [s[0]] + Stem(s[1..])
  }

  function UpperChar(c: char): char {
    if 'a' <= c <= 'z' then (c as int - 32) as char else c
  }

  function Upper(s: string): string {
    seq(|s|, i requires 0 <= i < |s| => UpperChar(s[i]))
  }

  /** The device names of Windows. */
  predicate IsReserved(s: string) {
    || s == "CON" || s == "PRN" || s == "AUX" || s == "NUL"
    || (|s| == 4 && (s[..3] == "COM" || s[..3] == "LPT") && '1' <= s[3] <= '9')
  }

  function Truncate(s: string): string {
    if |s| <= MaxComponentLength then s else s[..MaxComponentLength]
  }

  function SafeNameComponent(name: string, fallback: string): string {
    var cleaned := Clean(name);
    if IsBlank(cleaned) then fallback
    else if IsReserved(Upper(Stem(cleaned))) then Truncate("_" + cleaned)
    else Truncate(cleaned)
  }

  // ----- What it guarantees -----

  predicate AllAllowed(s: string) {
    forall i | 0 <= i < |s| :: IsAllowed(s[i])
  }

  /** A single level, no separator, drive or blank in it, and no device name. */
  predicate IsComponent(s: string) {
    AllAllowed(s) && 1 <= |s| <= 100 && !SpellsDevice(s)
  }

  lemma {:induction false} StripKeepsAllowed(s: string)
    requires AllAllowed(s)
    ensures StripLeft(s) == s && StripRight(s) == s
  {
    if s != "" {
      assert IsAllowed(s[0]) && IsAllowed(s[|s| - 1]);
    }
  }

  lemma CleanIsAllowed(name: string)
    ensures AllAllowed(Clean(name))
  {
  }

  lemma CleanKeepsAllowed(s: string)
    requires AllAllowed(s)
    ensures Clean(s) == s
  {
    StripKeepsAllowed(s);
    assert forall i | 0 <= i < |s| :: IsAllowed(s[i]);
  }

  lemma {:induction false} StemIsPrefix(s: string)
    ensures |Stem(s)| <= |s| && Stem(s) == s[..|Stem(s)|] && '.' !in Stem(s)
    ensures |Stem(s)| < |s| ==> s[|Stem(s)|] == '.'
  {
    if s != "" && s[0] != '.' {
      StemIsPrefix(s[1..]);
      assert s == [s[0]] + s[1..];
    }
  }

  lemma {:induction false} StemOfPrefix(s: string, n: nat)
    requires n <= |s|
    ensures Stem(s[..n]) == if |Stem(s)| <= n then Stem(s) else s[..n]
  {
    if n > 0 && s[0] != '.' {
      StemOfPrefix(s[1..], n - 1);
      assert s[..n][1..] == s[1..][..n - 1];
      StemIsPrefix(s);
      assert s[..n] == [s[0]] + s[1..][..n - 1];
    }
  }

  /** Cutting a name at a hundred characters never uncovers a device name. */
  lemma TruncateKeepsUnreserved(s: string)
    requires !IsReserved(Upper(Stem(s)))
    ensures !IsReserved(Upper(Stem(Truncate(s))))
  {
    hide Stem;
    if |s| > MaxComponentLength {
      StemOfPrefix(s, MaxComponentLength);
    }
  }

  lemma UnderscoreUnreserves(s: string)
    ensures !IsReserved(Upper(Stem("_" + s)))
  {
    var t := "_" + s;
    assert t[0] == '_' && Stem(t) == ['_'] + Stem(t[1..]);
    assert Upper(Stem(t))[0] == '_';
    assert |Upper(Stem(t))| == 4 ==> Upper(Stem(t))[..3][0] == '_';
  }

  // ----- What becomes of a name -----

  /** Everything outside `name[i..j]` is blank, and that part neither starts nor ends so. */
  predicate IsMiddle(name: string, i: nat, j: nat) {
    && i <= j <= |name|
    && (forall k | 0 <= k < |name| && !(i <= k < j) :: IsSpace(name[k]))
    && (i < j ==> !IsSpace(name[i]) && !IsSpace(name[j - 1]))
  }

  lemma {:induction false} StripLeftIs(s: string) returns (i: nat)
    ensures i <= |s| && StripLeft(s) == s[i..]
    ensures (forall k | 0 <= k < i :: IsSpace(s[k])) && (i < |s| ==> !IsSpace(s[i]))
  {
    hide IsSpace;
    i := 0;
    if s != "" && IsSpace(s[0]) {
      var rest := StripLeftIs(s[1..]);
      i := rest + 1;
      assert forall k | 0 < k < i :: s[1..][k - 1] == s[k];
    }
  }

  lemma {:induction false} StripRightIs(s: string) returns (j: nat)
    ensures j <= |s| && StripRight(s) == s[..j]
    ensures (forall k | j <= k < |s| :: IsSpace(s[k])) && (0 < j ==> !IsSpace(s[j - 1]))
  {
    hide IsSpace;
    j := |s|;
    if s != "" && IsSpace(s[|s| - 1]) {
      j := StripRightIs(s[..|s| - 1]);
    }
  }

  lemma MiddleIs(name: string) returns (i: nat, j: nat)
    ensures IsMiddle(name, i, j) && StripRight(StripLeft(name)) == name[i..j]
  {
    hide IsSpace;
    i := StripLeftIs(name);
    var n := StripRightIs(name[i..]);
    j := i + n;
    assert forall k | j <= k < |name| :: name[i..][k - i] == name[k];
    assert n > 0 ==> name[i..][n - 1] == name[j - 1] && name[i..][0] == name[i];
  }

  predicate IsWord(c: char) {
    'A' <= c <= 'Z' || 'a' <= c <= 'z' || '0' <= c <= '9'
  }

  /** `text` is the name between its outer blanks, with an underscore for every character
      other than ASCII letters, digits, dots, underscores and hyphens. */
  ghost predicate IsCleaned(name: string, text: string) {
    exists i: nat, j: nat ::
      IsMiddle(name, i, j) && |text| == j - i
      && forall k | 0 <= k < |text| ::
           text[k] == if IsWord(name[i + k]) || name[i + k] in {'.', '_', '-'} then name[i + k] else '_'
  }

  lemma CleanIs(name: string)
    ensures IsCleaned(name, Clean(name))
  {
    hide IsSpace;
    var i, j := MiddleIs(name);
    assert IsMiddle(name, i, j) && |Clean(name)| == j - i;
  }

  predicate Begins(s: string, device: string) {
    |s| >= |device| && forall i | 0 <= i < |device| ::
      s[i] == device[i] || ('A' <= device[i] <= 'Z' && s[i] as int == device[i] as int + ('a' as int - 'A' as int))
  }

  /** Up to the first dot, the text is a device name of Windows in any case. */
  predicate SpellsDevice(s: string) {
    || ((Begins(s, "CON") || Begins(s, "PRN") || Begins(s, "AUX") || Begins(s, "NUL"))
        && (|s| == 3 || s[3] == '.'))
    || ((Begins(s, "COM") || Begins(s, "LPT"))
        && |s| >= 4 && '1' <= s[3] <= '9' && (|s| == 4 || s[4] == '.'))
  }

  lemma UpperIs(t: string, device: string)
    requires forall i | 0 <= i < |device| :: 'A' <= device[i] <= 'Z'
    ensures Upper(t) == device <==> |t| == |device| && Begins(t, device)
  {
    if |t| == |device| && Begins(t, device) {
      assert forall i | 0 <= i < |t| :: Upper(t)[i] == device[i];
    }
    if Upper(t) == device {
      assert forall i | 0 <= i < |t| :: UpperChar(t[i]) == device[i];
    }
  }

  lemma UpperBegins(t: string, device: string)
    requires |t| >= |device| && forall i | 0 <= i < |device| :: 'A' <= device[i] <= 'Z'
    ensures Upper(t)[..|device|] == device <==> Begins(t, device)
  {
    UpperIs(t[..|device|], device);
    assert Upper(t[..|device|]) == Upper(t)[..|device|];
  }

  /** No letter is a dot, so what a text begins with its stem begins with. */
  lemma StemBegins(s: string, device: string)
    requires forall i | 0 <= i < |device| :: 'A' <= device[i] <= 'Z'
    ensures Begins(s, device) <==> Begins(Stem(s), device)
  {
    StemIsPrefix(s);
    hide Stem;
  }

  lemma DeviceIff(s: string)
    ensures IsReserved(Upper(Stem(s))) <==> SpellsDevice(s)
  {
    var t := Stem(s);
    StemIsPrefix(s);
    StemBegins(s, "CON");
    StemBegins(s, "PRN");
    StemBegins(s, "AUX");
    StemBegins(s, "NUL");
    StemBegins(s, "COM");
    StemBegins(s, "LPT");
    UpperIs(t, "CON");
    UpperIs(t, "PRN");
    UpperIs(t, "AUX");
    UpperIs(t, "NUL");
    if |t| >= 3 {
      UpperBegins(t, "COM");
      UpperBegins(t, "LPT");
    }
    hide Stem, Begins;
    assert |t| == 4 ==> Upper(t)[3] == UpperChar(t[3]);
  }

  /** The result over the characters of the name: the fallback if nothing but punctuation is
      left, else the cleaned name, marked if it spells a device, cut at a hundred characters. */
  lemma ResultIs(name: string, fallback: string) returns (text: string)
    ensures IsCleaned(name, text)
    ensures SafeNameComponent(name, fallback) ==
      if forall c | c in text :: c in {'.', '_', '-'} then fallback
      else
        var marked := if SpellsDevice(text) then "_" + text else text;
        if |marked| <= 100 then marked else marked[..100]
  {
    text := Clean(name);
    CleanIs(name);
    DeviceIff(text);
    hide Clean, IsCleaned, IsReserved, SpellsDevice, Stem;
    assert forall i | 0 <= i < |text| :: text[i] in text;
  }

  // ----- Safe components -----

  /** Whatever the input, the result is the fallback or a safe component. */
  lemma ResultIsComponent(name: string, fallback: string)
    ensures if IsBlank(Clean(name)) then SafeNameComponent(name, fallback) == fallback
            else IsComponent(SafeNameComponent(name, fallback))
  {
    var cleaned := Clean(name);
    CleanIsAllowed(name);
    DeviceIff(SafeNameComponent(name, fallback));
    hide Stem, Clean, Upper, IsReserved, IsAllowed, SpellsDevice;
    if !IsBlank(cleaned) {
      if IsReserved(Upper(Stem(cleaned))) {
        UnderscoreUnreserves(cleaned);
        TruncateKeepsUnreserved("_" + cleaned);
        assert IsAllowed('_') by { UnderscoreIsAllowed(); }
      } else {
        TruncateKeepsUnreserved(cleaned);
      }
    }
  }

  lemma UnderscoreIsAllowed()
    ensures IsAllowed('_')
  {
  }

  /** Exactly the safe components that are not blank are left as they are. */
  lemma UnchangedIff(s: string)
    ensures SafeNameComponent(s, DefaultFallback) == s <==> IsComponent(s) && !IsBlank(s)
  {
    FallbackIsNotBlank();
    DeviceIff(s);
    var cleaned := Clean(s);
    if IsComponent(s) && !IsBlank(s) {
      CleanKeepsAllowed(s);
    } else if SafeNameComponent(s, DefaultFallback) == s {
      ResultIsComponent(s, DefaultFallback);
      hide Stem, Upper, IsReserved, Clean;
      if !IsBlank(cleaned) {
        CleanKeepsAllowed(s);
        assert false;
      } else {
        assert s == DefaultFallback;
        CleanKeepsAllowed(s);
        assert false;
      }
    }
  }

  lemma FallbackIsNotBlank()
    ensures AllAllowed(DefaultFallback) && !IsBlank(DefaultFallback)
  {
    assert !IsPunctuation(DefaultFallback[0]);
  }

  /** Cleaning twice changes nothing more, except where cutting at a hundred characters
      leaves only dots, underscores and hyphens. */
  lemma IdempotentIff(name: string)
    ensures SafeNameComponent(SafeNameComponent(name, DefaultFallback), DefaultFallback)
            == SafeNameComponent(name, DefaultFallback)
       <==> IsBlank(Clean(name)) || !IsBlank(Truncate(Clean(name)))
  {
    var once := SafeNameComponent(name, DefaultFallback);
    ResultIsComponent(name, DefaultFallback);
    UnchangedIff(once);
    FallbackIsNotBlank();
    if IsBlank(Clean(name)) {
      FallbackIsComponent();
    } else {
      BlankResultIff(Clean(name));
    }
  }

  lemma FallbackIsComponent()
    ensures IsComponent(DefaultFallback)
  {
    FallbackIsNotBlank();
    assert |Stem(DefaultFallback)| > 4 by {
      var s := DefaultFallback;
      assert Stem(s) == [s[0], s[1], s[2], s[3], s[4]] + Stem(s[5..]) by {
        assert s[1..][1..] == s[2..] && s[2..][1..] == s[3..] && s[3..][1..] == s[4..] && s[4..][1..] == s[5..];
      }
    }
  }

  /** A reserved stem has a letter among its first characters, so its prefix does not make
      the cut blank. */
  lemma BlankResultIff(cleaned: string)
    requires !IsBlank(cleaned)
    ensures IsReserved(Upper(Stem(cleaned))) ==> !IsBlank(Truncate("_" + cleaned)) && !IsBlank(Truncate(cleaned))
  {
    if IsReserved(Upper(Stem(cleaned))) {
      StemIsPrefix(cleaned);
      var upper := Upper(Stem(cleaned));
      assert upper[0] == UpperChar(cleaned[0]);
      assert |upper| == 4 ==> upper[..3][0] == upper[0];
      assert IsLetter(cleaned[0]);
      assert Truncate(cleaned)[0] == cleaned[0];
      assert Truncate("_" + cleaned)[1] == cleaned[0];
    }
  }

  /** A name that is cleaned to something the function itself would replace. */
  lemma NotIdempotent() returns (name: string)
    ensures SafeNameComponent(name, DefaultFallback) == Underscores(100)
    ensures SafeNameComponent(Underscores(100), DefaultFallback) == DefaultFallback
  {
    name := Underscores(100) + "a";
    assert AllAllowed(name);
    CleanKeepsAllowed(name);
    assert !IsPunctuation(name[100]);
    assert name == "_" + name[1..];
    UnderscoreUnreserves(name[1..]);
    assert Truncate(name) == Underscores(100);
    CleanKeepsAllowed(Underscores(100));
  }

  function Underscores(n: nat): string {
    seq(n, _ => '_')
  }

  // ----- Run identities -----

  predicate IsValidQualificationId(id: string) {
    id == SafeNameComponent(id, DefaultFallback) && |id| <= QualificationIdMaxLength
  }

  /** `%Y%m%dT%H%M%SZ`. */
  predicate IsStamp(s: string) {
    |s| == 16 && s[8] == 'T' && s[15] == 'Z' && forall i | 0 <= i < 16 && i != 8 && i != 15 :: IsDigit(s[i])
  }

  /** `token_hex(4)`. */
  predicate IsToken(s: string) {
    |s| == 8 && forall i | 0 <= i < 8 :: IsDigit(s[i]) || 'a' <= s[i] <= 'f'
  }

  function RunId(id: string, stamp: string, token: string): string {
    "poe3b-" + id + "-" + stamp + "-" + token
  }

  datatype Refusal = InvalidQualificationId | RunIdentityDoesNotFit

  function QualificationRunId(id: string, stamp: string, token: string): Result<string, Refusal> {
    if !IsValidQualificationId(id) then Err(InvalidQualificationId)
    else if RunId(id, stamp, token) != SafeNameComponent(RunId(id, stamp, token), DefaultFallback)
    then Err(RunIdentityDoesNotFit)
    else Ok(RunId(id, stamp, token))
  }

  lemma RunIdIsAllowed(id: string, stamp: string, token: string)
    requires AllAllowed(id) && IsStamp(stamp) && IsToken(token)
    ensures AllAllowed(RunId(id, stamp, token)) && |RunId(id, stamp, token)| == |id| + 32
  {
    var head, tail := "poe3b-" + id + "-", stamp + "-" + token;
    assert AllAllowed(head);
    assert AllAllowed(tail);
    assert RunId(id, stamp, token) == head + tail;
  }

  lemma RunIdIsUnreserved(id: string, stamp: string, token: string)
    ensures !IsReserved(Upper(Stem(RunId(id, stamp, token)))) && !IsBlank(RunId(id, stamp, token))
  {
    var s := RunId(id, stamp, token);
    assert s[..6] == "poe3b-";
    assert s[0] == s[..6][0] && s[1] == s[..6][1] && s[2] == s[..6][2] && s[3] == s[..6][3] && s[4] == s[..6][4];
    StemIsPrefix(s);
    StemStarts(s);
    assert !IsPunctuation(s[0]);
  }

  lemma StemStarts(s: string)
    requires |s| > 5 && forall i | 0 <= i < 5 :: s[i] != '.'
    ensures |Stem(s)| >= 5
  {
    StemIsPrefix(s);
  }

  /** The budget is exact: of the ids made of allowed characters, those of at most 68
      characters, and no longer ones, give a run identity that fits one component. */
  lemma BudgetIsExact(id: string, stamp: string, token: string)
    requires AllAllowed(id) && IsStamp(stamp) && IsToken(token)
    ensures SafeNameComponent(RunId(id, stamp, token), DefaultFallback) == RunId(id, stamp, token)
       <==> |id| <= QualificationIdMaxLength
  {
    hide SafeNameComponent, Stem, Upper, RunId, SpellsDevice, IsReserved;
    RunIdIsAllowed(id, stamp, token);
    RunIdIsUnreserved(id, stamp, token);
    DeviceIff(RunId(id, stamp, token));
    UnchangedIff(RunId(id, stamp, token));
  }

  /** Every valid id gets its run identity in full; the second refusal never happens. */
  lemma ValidIdHasRunId(id: string, stamp: string, token: string)
    requires IsStamp(stamp) && IsToken(token)
    ensures QualificationRunId(id, stamp, token)
         == if IsComponent(id) && !IsBlank(id) && |id| <= QualificationIdMaxLength
            then Ok(RunId(id, stamp, token)) else Err(InvalidQualificationId)
  {
    hide SafeNameComponent, RunId, IsStamp, IsToken;
    UnchangedIff(id);
    if AllAllowed(id) {
      BudgetIsExact(id, stamp, token);
    }
  }

  /** A run identity is never shared: it determines the id, the time and the token. */
  lemma RunIdDetermines(
    id: string, stamp: string, token: string, otherId: string, otherStamp: string, otherToken: string)
    requires |stamp| == |otherStamp| == 16 && |token| == |otherToken| == 8
    requires RunId(id, stamp, token) == RunId(otherId, otherStamp, otherToken)
    ensures id == otherId && stamp == otherStamp && token == otherToken
  {
    var s, n := RunId(id, stamp, token), |id|;
    assert |otherId| == n;
    assert s[6..6 + n] == id && RunId(otherId, otherStamp, otherToken)[6..6 + n] == otherId;
    assert s[7 + n..23 + n] == stamp && RunId(otherId, otherStamp, otherToken)[7 + n..23 + n] == otherStamp;
    assert s[24 + n..] == token && RunId(otherId, otherStamp, otherToken)[24 + n..] == otherToken;
  }
}
