/** The run ledger of the voice comparison: a list that every recording filters, extends and
    sorts again, and the map it stands for. */
module VoiceLedger {
  import opened Characters
  import opened Outcomes
  import opened StableSort

  // ----- Sort keys -----

  /** `run17` sorts by its number before every other name; other names sort as text. */
  datatype Key = Numbered(n: nat) | Named(name: string)

  /** `[1-9][0-9]*` */
  predicate IsNumeral(s: string) {
    s != "" && s[0] != '0' && forall i | 0 <= i < |s| :: IsDigit(s[i])
  }

  function DigitValue(c: char): (d: nat)
    requires IsDigit(c)
    ensures d < 10
  {
    c as int - '0' as int
  }

  function Decimal(s: string): nat
    requires forall i | 0 <= i < |s| :: IsDigit(s[i])
  {
    if s == "" then 0 else 10 * Decimal(s[..|s| - 1]) + DigitValue(s[|s| - 1])
  }

  predicate IsRunNumber(name: string) {
    |name| > 3 && name[..3] == "run" && IsNumeral(name[3..])
  }

  function RunKey(name: string): Key {
    if IsRunNumber(name) then Numbered(Decimal(name[3..])) else Named(name)
  }

  /** Python's order of strings. */
  predicate LexLe(s: string, t: string) {
    s == "" || (t != "" && (s[0] < t[0] || (s[0] == t[0] && LexLe(s[1..], t[1..]))))
  }

  predicate KeyLe(a: Key, b: Key) {
    match (a, b)
    case (Numbered(m), Numbered(n)) => m <= n
    case (Numbered(_), Named(_)) => true
    case (Named(_), Numbered(_)) => false
    case (Named(s), Named(t)) => LexLe(s, t)
  }

  lemma {:induction false} LexTotal(s: string, t: string)
    ensures LexLe(s, t) || LexLe(t, s)
    ensures LexLe(s, t) && LexLe(t, s) ==> s == t
  {
    if s != "" && t != "" && s[0] == t[0] {
      LexTotal(s[1..], t[1..]);
      assert s == [s[0]] + s[1..] && t == [t[0]] + t[1..];
    }
  }

  lemma {:induction false} LexTransitive(s: string, t: string, u: string)
    requires LexLe(s, t) && LexLe(t, u)
    ensures LexLe(s, u)
  {
    if s != "" && s[0] == t[0] == u[0] {
      LexTransitive(s[1..], t[1..], u[1..]);
    }
  }

  lemma {:induction false} NumeralPositive(s: string)
    requires IsNumeral(s)
    ensures Decimal(s) >= 1
  {
    if |s| > 1 {
      NumeralPositive(s[..|s| - 1]);
    }
  }

  /** Without leading zeros a number has one numeral. */
  lemma {:induction false} DecimalInjective(s: string, t: string)
    requires IsNumeral(s) && IsNumeral(t) && Decimal(s) == Decimal(t)
    ensures s == t
  {
    var m, n := |s| - 1, |t| - 1;
    assert DigitValue(s[m]) == DigitValue(t[n]) && Decimal(s[..m]) == Decimal(t[..n]);
    if m > 0 {
      NumeralPositive(s[..m]);
    }
    if n > 0 {
      NumeralPositive(t[..n]);
    }
    if m > 0 {
      assert n > 0;
      DecimalInjective(s[..m], t[..n]);
    }
    assert s == s[..m] + [s[m]] && t == t[..n] + [t[n]];
  }

  /** Different runs never tie. */
  lemma KeyInjective(a: string, b: string)
    requires RunKey(a) == RunKey(b)
    ensures a == b
  {
    if IsRunNumber(a) {
      DecimalInjective(a[3..], b[3..]);
      assert a == a[..3] + a[3..] && b == b[..3] + b[3..];
    }
  }

  // ----- Entries -----

  datatype Entry = Entry(
    run: string, filename: string, sha256: string, sourceHead: string, headProvenance: string, role: string,
    outcome: string, packetTracerVersion: string, canonicalCopyAtWrite: bool, note: string)

  predicate EntryLe(a: Entry, b: Entry) {
    KeyLe(RunKey(a.run), RunKey(b.run))
  }

  lemma EntryOrder(a: Entry, b: Entry, c: Entry)
    ensures EntryLe(a, b) || EntryLe(b, a)
    ensures EntryLe(a, b) && EntryLe(b, c) ==> EntryLe(a, c)
    ensures EntryLe(a, b) && EntryLe(b, a) ==> a.run == b.run
  {
    hide RunKey, LexLe;
    LexTotal(RunKeyName(a), RunKeyName(b));
    if EntryLe(a, b) && EntryLe(b, c) {
      if RunKey(a.run).Named? {
        LexTransitive(RunKeyName(a), RunKeyName(b), RunKeyName(c));
      }
    }
    if EntryLe(a, b) && EntryLe(b, a) {
      KeyInjective(a.run, b.run);
    }
  }

  function RunKeyName(a: Entry): string {
    if RunKey(a.run).Named? then RunKey(a.run).name else ""
  }

  lemma EntriesArePreordered()
    ensures TotalPreorder(EntryLe)
  {
    forall a, b ensures EntryLe(a, b) || EntryLe(b, a) {
      EntryOrder(a, b, b);
    }
    forall a, b, c | EntryLe(a, b) && EntryLe(b, c) ensures EntryLe(a, c) {
      EntryOrder(a, b, c);
    }
  }

  // ----- The list -----

  function Without(runs: seq<Entry>, run: string): seq<Entry> {
    if runs == [] then []
    else (if runs[0].run != run then [runs[0]] else []) + Without(runs[1..], run)
  }

  /** What one recording makes of the list. */
  function Recorded(runs: seq<Entry>, e: Entry): seq<Entry> {
    Sort(Without(runs, e.run) + [e], EntryLe)
  }

  function RecordedAll(es: seq<Entry>): seq<Entry> {
    if es == [] then [] else Recorded(RecordedAll(es[..|es| - 1]), es[|es| - 1])
  }

  /** Each run after all its predecessors, and no run twice. */
  ghost predicate StrictlySorted(runs: seq<Entry>) {
    forall i, j | 0 <= i < j < |runs| :: EntryLe(runs[i], runs[j]) && runs[i].run != runs[j].run
  }

  /** The map from runs to their entries. */
  ghost predicate Holds(runs: seq<Entry>, m: map<string, Entry>) {
    && (forall e | e in runs :: e.run in m && m[e.run] == e)
    && (forall r | r in m :: m[r] in runs && m[r].run == r)
  }

  // ----- Strictly sorted lists are determined by their entries -----

  ghost predicate DistinctRuns(runs: seq<Entry>) {
    forall i, j | 0 <= i < j < |runs| :: runs[i].run != runs[j].run
  }

  lemma {:induction false} SortedPairs(runs: seq<Entry>, i: nat, j: nat)
    requires Sorted(runs, EntryLe) && i < j < |runs|
    ensures EntryLe(runs[i], runs[j])
  {
    if i == 0 {
      assert runs[j] == runs[1..][j - 1];
      assert runs[1..][j - 1] in runs[1..];
    } else {
      SortedPairs(runs[1..], i - 1, j - 1);
    }
  }

  lemma {:induction false} DistinctOfMultiset(s: seq<Entry>, t: seq<Entry>)
    requires multiset(s) == multiset(t) && DistinctRuns(s)
    ensures DistinctRuns(t)
  {
    forall i, j | 0 <= i < j < |t| ensures t[i].run != t[j].run {
      if t[i] == t[j] {
        TwiceInMultiset(t, i, j);
        OnceInDistinct(s, t[i]);
        assert false;
      } else {
        assert t[i] in multiset(s) && t[j] in multiset(s);
        var k :| 0 <= k < |s| && s[k] == t[i];
        var l :| 0 <= l < |s| && s[l] == t[j];
        assert k != l;
      }
    }
  }

  lemma TwiceInMultiset(t: seq<Entry>, i: nat, j: nat)
    requires i < j < |t| && t[i] == t[j]
    ensures multiset(t)[t[i]] >= 2
  {
    assert t == t[..j] + [t[j]] + t[j + 1..];
    assert t[..j][i] == t[i];
    assert t[i] in multiset(t[..j]);
  }

  lemma {:induction false} OnceInDistinct(s: seq<Entry>, e: Entry)
    requires DistinctRuns(s)
    ensures multiset(s)[e] <= 1
  {
    if s != [] {
      assert s == [s[0]] + s[1..];
      OnceInDistinct(s[1..], e);
      if e == s[0] {
        assert forall k | 0 <= k < |s[1..]| :: s[1..][k] == s[k + 1];
        assert e !in s[1..];
      }
    }
  }

  /** Two strictly sorted lists of the same entries are the same list. */
  lemma {:induction false} SameEntriesSameList(s: seq<Entry>, t: seq<Entry>)
    requires StrictlySorted(s) && StrictlySorted(t)
    requires forall e :: e in s <==> e in t
    ensures s == t
  {
    if s == [] {
      if t != [] {
        HeadIsIn(t);
        assert false;
      }
    } else {
      assert s[0] in t && t != [];
      HeadsAgree(s, t);
      forall e ensures e in s[1..] <==> e in t[1..] {
        TailMembers(s, e);
        TailMembers(t, e);
      }
      assert StrictlySorted(s[1..]) && StrictlySorted(t[1..]);
      SameEntriesSameList(s[1..], t[1..]);
      assert s == [s[0]] + s[1..] && t == [t[0]] + t[1..];
    }
  }

  lemma HeadIsIn(s: seq<Entry>)
    requires s != []
    ensures s[0] in s
  {
  }

  lemma HeadsAgree(s: seq<Entry>, t: seq<Entry>)
    requires StrictlySorted(s) && StrictlySorted(t) && s != [] && t != []
    requires s[0] in t && t[0] in s
    ensures s[0] == t[0]
  {
    hide EntryLe;
    var k :| 0 <= k < |t| && t[k] == s[0];
    var l :| 0 <= l < |s| && s[l] == t[0];
    if k > 0 && l > 0 {
      EntryOrder(s[0], t[0], t[0]);
      assert false;
    }
  }

  lemma TailMembers(s: seq<Entry>, e: Entry)
    requires StrictlySorted(s) && s != []
    ensures e in s[1..] <==> e in s && e != s[0]
  {
    hide EntryLe;
    assert forall k | 0 <= k < |s[1..]| :: s[1..][k] == s[k + 1];
  }

  // ----- One recording -----

  lemma {:induction false} WithoutMembers(runs: seq<Entry>, run: string, e: Entry)
    ensures e in Without(runs, run) <==> e in runs && e.run != run
  {
    if runs != [] {
      WithoutMembers(runs[1..], run, e);
    }
  }

  lemma {:induction false} WithoutDistinct(runs: seq<Entry>, run: string)
    requires DistinctRuns(runs)
    ensures DistinctRuns(Without(runs, run))
  {
    if runs != [] {
      var rest := Without(runs[1..], run);
      WithoutDistinct(runs[1..], run);
      forall k | 0 <= k < |rest| ensures rest[k].run != runs[0].run {
        WithoutMembers(runs[1..], run, rest[k]);
        var l :| 0 <= l < |runs[1..]| && runs[1..][l] == rest[k];
        assert runs[l + 1] == rest[k];
      }
    }
  }

  lemma SortedDistinct(s: seq<Entry>)
    requires DistinctRuns(s)
    ensures StrictlySorted(Sort(s, EntryLe))
    ensures forall e :: e in Sort(s, EntryLe) <==> e in s
  {
    hide EntryLe, Sort, Sorted;
    EntriesArePreordered();
    SortKeeps(s, EntryLe);
    var t := Sort(s, EntryLe);
    DistinctOfMultiset(s, t);
    forall i, j | 0 <= i < j < |t| ensures EntryLe(t[i], t[j]) {
      SortedPairs(t, i, j);
    }
    assert forall e :: e in t <==> e in multiset(t);
    assert forall e :: e in s <==> e in multiset(s);
  }

  /** A recording keeps the list strictly sorted, and replaces exactly the entry of its
      run. */
  lemma RecordedMembers(runs: seq<Entry>, e: Entry)
    requires StrictlySorted(runs)
    ensures StrictlySorted(Recorded(runs, e))
    ensures forall x :: x in Recorded(runs, e) <==> x == e || (x in runs && x.run != e.run)
  {
    hide EntryLe, Sort, Without;
    WithoutDistinct(runs, e.run);
    forall x ensures x in Without(runs, e.run) <==> x in runs && x.run != e.run {
      WithoutMembers(runs, e.run, x);
    }
    assert forall k | 0 <= k < |Without(runs, e.run)| :: Without(runs, e.run)[k] in Without(runs, e.run);
    SortedDistinct(Without(runs, e.run) + [e]);
  }

  /** The list refines a map that the last recording of a run wins. */
  lemma RecordedRefinesMap(runs: seq<Entry>, m: map<string, Entry>, e: Entry)
    requires StrictlySorted(runs) && Holds(runs, m)
    ensures Holds(Recorded(runs, e), m[e.run := e])
  {
    hide StrictlySorted, Recorded;
    RecordedMembers(runs, e);
  }

  // ----- Any number of recordings -----

  function LastWins(es: seq<Entry>): map<string, Entry> {
    if es == [] then map[] else LastWins(es[..|es| - 1])[es[|es| - 1].run := es[|es| - 1]]
  }

  /** After any sequence of recordings the runs are unique and strictly sorted, and the list
      holds for each run what was recorded for it last. */
  lemma {:induction false} LedgerRefinesMap(es: seq<Entry>)
    ensures StrictlySorted(RecordedAll(es)) && Holds(RecordedAll(es), LastWins(es))
  {
    if es != [] {
      hide StrictlySorted, Holds, Recorded;
      var before := es[..|es| - 1];
      LedgerRefinesMap(before);
      RecordedMembers(RecordedAll(before), es[|es| - 1]);
      RecordedRefinesMap(RecordedAll(before), LastWins(before), es[|es| - 1]);
    }
  }

  /** `s` comes before `t` in a dictionary. */
  ghost predicate InDictionary(s: string, t: string) {
    exists k | 0 <= k <= |s| && k <= |t| ::
      s[..k] == t[..k] && (if k == |s| then k < |t| else k < |t| && s[k] < t[k])
  }

  lemma {:induction false} LexIsDictionary(s: string, t: string)
    ensures LexLe(s, t) <==> s == t || InDictionary(s, t)
  {
    if s == "" || t == "" {
      if s == "" && t != "" {
        assert s[..0] == t[..0];
      }
    } else {
      LexIsDictionary(s[1..], t[1..]);
      assert s == [s[0]] + s[1..] && t == [t[0]] + t[1..];
      if s[0] == t[0] {
        SameFirst(s, t);
      } else {
        assert forall k | 0 < k <= |s| && k <= |t| :: s[..k][0] == s[0] && t[..k][0] == t[0];
        assert s[..0] == t[..0];
      }
    }
  }

  lemma SameFirst(s: string, t: string)
    requires s != "" && t != "" && s[0] == t[0]
    ensures InDictionary(s, t) <==> InDictionary(s[1..], t[1..])
  {
    if InDictionary(s, t) {
      var k :| 0 <= k <= |s| && k <= |t| && s[..k] == t[..k]
               && (if k == |s| then k < |t| else k < |t| && s[k] < t[k]);
      assert k > 0;
      assert s[1..][..k - 1] == s[..k][1..] == t[..k][1..] == t[1..][..k - 1];
    }
    if InDictionary(s[1..], t[1..]) {
      var k :| 0 <= k <= |s[1..]| && k <= |t[1..]| && s[1..][..k] == t[1..][..k]
               && (if k == |s[1..]| then k < |t[1..]| else k < |t[1..]| && s[1..][k] < t[1..][k]);
      assert s[..k + 1] == [s[0]] + s[1..][..k] && t[..k + 1] == [t[0]] + t[1..][..k];
    }
  }

  // ----- The order over the names -----

  /** `run`, a digit other than zero, and digits. */
  predicate HasNumber(name: string) {
    && |name| >= 4 && name[0] == 'r' && name[1] == 'u' && name[2] == 'n' && '1' <= name[3] <= '9'
    && forall i | 4 <= i < |name| :: '0' <= name[i] <= '9'
  }

  lemma NumberedIff(name: string)
    ensures IsRunNumber(name) <==> HasNumber(name)
  {
    if HasNumber(name) {
      assert name[..3] == "run" && forall i | 0 <= i < |name[3..]| :: name[3..][i] == name[3 + i];
    }
    if IsRunNumber(name) {
      assert name[0] == name[..3][0] && name[1] == name[..3][1] && name[2] == name[..3][2];
      assert forall i | 3 <= i < |name| :: name[i] == name[3..][i - 3];
    }
  }

  ghost predicate AllDigits(s: string) {
    forall i | 0 <= i < |s| :: IsDigit(s[i])
  }

  function Power(n: nat): (p: nat)
    ensures p > 0
  {
    if n == 0 then 1 else 10 * Power(n - 1)
  }

  lemma {:induction false} DecimalBounds(s: string)
    requires AllDigits(s)
    ensures Decimal(s) < Power(|s|)
    ensures s != "" && s[0] != '0' ==> Decimal(s) >= Power(|s| - 1)
  {
    if |s| > 0 {
      DecimalBounds(s[..|s| - 1]);
    }
  }

  lemma {:induction false} PowerGrows(m: nat, n: nat)
    requires m <= n
    ensures Power(m) <= Power(n)
  {
    if m < n {
      PowerGrows(m, n - 1);
    }
  }

  /** Digit strings of one length compare as their numbers do. */
  lemma {:induction false} SameLengthOrder(s: string, t: string)
    requires AllDigits(s) && AllDigits(t) && |s| == |t| && Decimal(s) <= Decimal(t)
    ensures s == t || InDictionary(s, t)
  {
    if s != "" {
      var n := |s| - 1;
      assert s == s[..n] + [s[n]] && t == t[..n] + [t[n]];
      SameLengthOrder(s[..n], t[..n]);
      if s[..n] != t[..n] {
        var k :| 0 <= k < n && s[..n][..k] == t[..n][..k] && s[..n][k] < t[..n][k];
        assert s[..k] == s[..n][..k] && t[..k] == t[..n][..k];
      }
    }
  }

  lemma NumeralOrder(s: string, t: string)
    requires IsNumeral(s) && IsNumeral(t) && Decimal(s) < Decimal(t)
    ensures |s| < |t| || (|s| == |t| && InDictionary(s, t))
  {
    if |s| == |t| {
      SameLengthOrder(s, t);
    } else if |s| > |t| {
      DecimalBounds(s);
      DecimalBounds(t);
      PowerGrows(|t|, |s| - 1);
      assert false;
    }
  }

  /** Which of two run names comes first: numbered before unnumbered, a shorter number before
      a longer one, and otherwise as in a dictionary. */
  ghost predicate Precedes(a: string, b: string) {
    if HasNumber(a) && HasNumber(b) then |a| < |b| || (|a| == |b| && InDictionary(a, b))
    else HasNumber(a) || (!HasNumber(b) && InDictionary(a, b))
  }

  lemma DictionaryBehind(p: string, s: string, t: string)
    requires InDictionary(s, t)
    ensures InDictionary(p + s, p + t)
  {
    var k :| 0 <= k <= |s| && k <= |t| && s[..k] == t[..k]
             && (if k == |s| then k < |t| else k < |t| && s[k] < t[k]);
    var m := |p| + k;
    assert (p + s)[..m] == p + s[..k] && (p + t)[..m] == p + t[..k];
  }

  lemma KeyOrder(a: string, b: string)
    requires KeyLe(RunKey(a), RunKey(b)) && a != b
    ensures Precedes(a, b)
  {
    hide InDictionary, LexLe, Decimal, HasNumber;
    NumberedIff(a);
    NumberedIff(b);
    if IsRunNumber(a) && IsRunNumber(b) {
      if Decimal(a[3..]) == Decimal(b[3..]) {
        KeyInjective(a, b);
        assert false;
      } else {
        NumeralOrder(a[3..], b[3..]);
        if InDictionary(a[3..], b[3..]) {
          DictionaryBehind("run", a[3..], b[3..]);
        }
        assert a == "run" + a[3..] && b == "run" + b[3..];
      }
    } else {
      LexIsDictionary(a, b);
    }
  }

  /** After any recordings every run stands before those that its name precedes. */
  lemma RunsInOrder(es: seq<Entry>, i: nat, j: nat)
    requires i < j < |RecordedAll(es)|
    ensures Precedes(RecordedAll(es)[i].run, RecordedAll(es)[j].run)
  {
    hide RecordedAll, Precedes, RunKey, KeyLe;
    LedgerRefinesMap(es);
    KeyOrder(RecordedAll(es)[i].run, RecordedAll(es)[j].run);
  }

  /** The list depends on nothing but that map: not on the order of the recordings, and not
      on what they replaced. */
  lemma LedgerIsCanonical(es: seq<Entry>, fs: seq<Entry>)
    requires LastWins(es) == LastWins(fs)
    ensures RecordedAll(es) == RecordedAll(fs)
  {
    hide StrictlySorted, RecordedAll, LastWins;
    LedgerRefinesMap(es);
    LedgerRefinesMap(fs);
    forall e ensures e in RecordedAll(es) <==> e in RecordedAll(fs) {
      assert e in RecordedAll(es) ==> LastWins(es)[e.run] == e;
      assert e in RecordedAll(fs) ==> LastWins(fs)[e.run] == e;
    }
    SameEntriesSameList(RecordedAll(es), RecordedAll(fs));
  }

  /** Recording different runs commutes, and recording a run again forgets the first. */
  lemma RecordingsCommute(es: seq<Entry>, a: Entry, b: Entry)
    ensures a.run != b.run ==> RecordedAll(es + [a, b]) == RecordedAll(es + [b, a])
    ensures a.run == b.run ==> RecordedAll(es + [a, b]) == RecordedAll(es + [b])
  {
    LastTwo(es, a, b);
    LastTwo(es, b, a);
    if a.run != b.run {
      LedgerIsCanonical(es + [a, b], es + [b, a]);
    } else {
      assert (es + [b])[..|es|] == es;
      LedgerIsCanonical(es + [a, b], es + [b]);
    }
  }

  lemma LastTwo(es: seq<Entry>, a: Entry, b: Entry)
    ensures LastWins(es + [a, b]) == LastWins(es)[a.run := a][b.run := b]
  {
    assert (es + [a, b])[..|es| + 1] == es + [a];
    assert (es + [a])[..|es|] == es;
  }

  // ----- The recorder -----

  const CanonicalFilename: string := "positive-voice-ab.json"

  datatype Refusal = CanonicalNotArchived | UnknownRole | UnknownProvenance | NotACommit | ArchiveMissing

  datatype Submission = Submission(
    run: string, filename: string, sourceHead: string, role: string, outcome: string,
    packetTracerVersion: string, headProvenance: string, note: string)

  predicate IsHex(c: char) {
    IsDigit(c) || 'a' <= c <= 'f'
  }

  predicate IsCommitId(s: string) {
    |s| == 40 && forall i | 0 <= i < 40 :: IsHex(s[i])
  }

  /** `$` in a pattern: the end, or before a newline that ends the text. */
  predicate AtDollar(s: string, position: nat) {
    position == |s| || (position + 1 == |s| && s[position] == '\n')
  }

  /** `re.match` of `^[0-9a-f]{40}$`. */
  predicate MatchesCommit(s: string) {
    |s| >= 40 && IsCommitId(s[..40]) && AtDollar(s, 40)
  }

  /** Forty digits or letters from `a` to `f`, and perhaps a newline behind them. */
  predicate IsFullHead(s: string) {
    && (|s| == 40 || (|s| == 41 && s[40] == '\n'))
    && forall i | 0 <= i < 40 :: '0' <= s[i] <= '9' || 'a' <= s[i] <= 'f'
  }

  lemma MatchesIffFullHead(s: string)
    ensures MatchesCommit(s) <==> IsFullHead(s)
  {
    if |s| >= 40 {
      assert forall i | 0 <= i < 40 :: s[..40][i] == s[i];
    }
  }

  /** The gates in their order; `files` gives the digest of each archived file. */
  function Check(
    s: Submission, roles: set<string>, provenances: set<string>, files: map<string, string>): Option<Refusal>
  {
    if s.filename == CanonicalFilename then Some(CanonicalNotArchived)
    else if s.role !in roles then Some(UnknownRole)
    else if s.headProvenance !in provenances then Some(UnknownProvenance)
    else if !MatchesCommit(s.sourceHead) then Some(NotACommit)
    else if s.filename !in files then Some(ArchiveMissing)
    else None
  }

  function EntryFor(s: Submission, files: map<string, string>): Entry
    requires s.filename in files
  {
    Entry(s.run, s.filename, files[s.filename], s.sourceHead, s.headProvenance, s.role, s.outcome,
          s.packetTracerVersion,
          CanonicalFilename in files && files[CanonicalFilename] == files[s.filename], s.note)
  }

  class Ledger {
    var runs: seq<Entry>

    constructor ()
      ensures runs == RecordedAll([])
    {
      runs := [];
    }

    /** A refused recording leaves the ledger as it was. */
    method Record(s: Submission, roles: set<string>, provenances: set<string>, files: map<string, string>)
      returns (r: Result<Entry, Refusal>)
      modifies this
      ensures match Check(s, roles, provenances, files)
              case Some(refusal) => r == Err(refusal) && runs == old(runs)
              case None => r == Ok(EntryFor(s, files)) && runs == Recorded(old(runs), EntryFor(s, files))
      // It is refused for the first of these reasons that there is.
      ensures r.Ok? <==>
        && s.filename != "positive-voice-ab.json" && s.role in roles && s.headProvenance in provenances
        && IsFullHead(s.sourceHead) && s.filename in files
      ensures r == Err(CanonicalNotArchived) <==> s.filename == "positive-voice-ab.json"
      ensures s.filename != "positive-voice-ab.json" ==> (r == Err(UnknownRole) <==> s.role !in roles)
      ensures s.filename != "positive-voice-ab.json" && s.role in roles ==>
        (r == Err(UnknownProvenance) <==> s.headProvenance !in provenances)
      ensures r == Err(ArchiveMissing) ==> IsFullHead(s.sourceHead) && s.filename !in files
      // The entry is what was submitted, with the digests of the files there are.
      ensures r.Ok? ==>
        && r.value.run == s.run && r.value.filename == s.filename && r.value.sha256 == files[s.filename]
        && r.value.sourceHead == s.sourceHead && r.value.headProvenance == s.headProvenance
        && r.value.role == s.role && r.value.outcome == s.outcome
        && r.value.packetTracerVersion == s.packetTracerVersion && r.value.note == s.note
        && (r.value.canonicalCopyAtWrite <==>
              "positive-voice-ab.json" in files && files["positive-voice-ab.json"] == files[s.filename])
    {
      hide MatchesCommit, IsFullHead, Without;
      MatchesIffFullHead(s.sourceHead);
      if s.filename == CanonicalFilename {
        return Err(CanonicalNotArchived);
      }
      if s.role !in roles {
        return Err(UnknownRole);
      }
      if s.headProvenance !in provenances {
        return Err(UnknownProvenance);
      }
      if !MatchesCommit(s.sourceHead) {
        return Err(NotACommit);
      }
      if s.filename !in files {
        return Err(ArchiveMissing);
      }
      var digest := files[s.filename];
      var entry := Entry(
        s.run, s.filename, digest, s.sourceHead, s.headProvenance, s.role, s.outcome, s.packetTracerVersion,
        CanonicalFilename in files && files[CanonicalFilename] == digest, s.note);
      var kept := Without(runs, s.run);
      runs := Sort(kept + [entry], EntryLe);
      r := Ok(entry);
    }
  }

  /** Only full commit ids are recorded, except that a final newline slips through. */
  lemma RecordedHeads(s: Submission, roles: set<string>, provenances: set<string>, files: map<string, string>)
    requires Check(s, roles, provenances, files).None?
    ensures IsCommitId(s.sourceHead) <==> |s.sourceHead| == 40
    ensures |s.sourceHead| != 40 ==> s.sourceHead == s.sourceHead[..40] + "\n" && IsCommitId(s.sourceHead[..40])
  {
    assert |s.sourceHead| == 40 ==> s.sourceHead[..40] == s.sourceHead;
  }

  predicate EndsInNewline(s: string) {
    s != "" && s[|s| - 1] == '\n'
  }

  /** The source's promise for the whole ledger: after any accepted recordings, each with the
      files there were at the time, every run carries a full commit id, exactly where its head
      did not end in a newline. */
  lemma {:induction false} LedgerHeads(
    submissions: seq<Submission>, roles: set<string>, provenances: set<string>, files: seq<map<string, string>>,
    es: seq<Entry>, e: Entry)
    requires |submissions| == |files| == |es|
    requires forall i | 0 <= i < |es| ::
      Check(submissions[i], roles, provenances, files[i]).None? && es[i] == EntryFor(submissions[i], files[i])
    requires e in RecordedAll(es)
    ensures exists i | 0 <= i < |es| :: es[i] == e && forall j | i < j < |es| :: es[j].run != e.run
    ensures IsCommitId(e.sourceHead) <==> !EndsInNewline(e.sourceHead)
  {
    hide RecordedAll;
    LedgerRefinesMap(es);
    var i := LastRecording(es, e.run);
    RecordedHeads(submissions[i], roles, provenances, files[i]);
    var head := e.sourceHead;
    assert head == submissions[i].sourceHead;
    if |head| == 40 {
      assert IsHex(head[39]);
    }
  }

  /** The entry a run has in the map is its last recording. */
  lemma {:induction false} LastRecording(es: seq<Entry>, run: string) returns (i: nat)
    requires run in LastWins(es)
    ensures i < |es| && es[i].run == run && es[i] == LastWins(es)[run]
    ensures forall j | i < j < |es| :: es[j].run != run
  {
    var n := |es| - 1;
    if es[n].run == run {
      i := n;
    } else {
      i := LastRecording(es[..n], run);
      assert forall j | 0 <= j < n :: es[..n][j] == es[j];
    }
  }

  /** A recording with such a head passes every gate, on a new ledger. */
  method NewlineHeadIsRecorded() returns (s: Submission, ledger: Ledger, r: Result<Entry, Refusal>)
    ensures s.sourceHead == CommitOfZeros() + "\n" && !IsCommitId(s.sourceHead)
    ensures Check(s, {"role"}, {"provenance"}, map["run1.json" := "digest"]).None?
    ensures r == Ok(EntryFor(s, map["run1.json" := "digest"])) && ledger.runs == [r.value]
  {
    var head := CommitOfZeros() + "\n";
    s := Submission("run1", "run1.json", head, "role", "", "", "provenance", "");
    assert head[..40] == CommitOfZeros();
    ledger := new Ledger();
    assert ledger.runs == [];
    r := ledger.Record(s, {"role"}, {"provenance"}, map["run1.json" := "digest"]);
    FirstRecording(r.value);
  }

  lemma FirstRecording(e: Entry)
    ensures Recorded([], e) == [e]
  {
    assert Without([], e.run) + [e] == [e];
    assert [e][1..] == [];
    assert Sort([e], EntryLe) == Insert(e, Sort([], EntryLe), EntryLe);
  }

  function CommitOfZeros(): (s: string)
    ensures IsCommitId(s)
  {
    seq(40, _ => '0')
  }
}
