/**
 * Version strings and their sort keys. A qualifier's factor (0.0001 up to 1) is
 * scaled by 10000 so that keys stay exact.
 */
module Versions {
  import opened Wrappers
  import opened Decimal

  /** The kinds of qualifier, lowest first. `Number` is the one without a prefix. */
  datatype Stage = Dev | Alpha | Beta | Rc | Number {
    function Level(): nat {
      match this case Dev => 0 case Alpha => 1 case Beta => 2 case Rc => 3 case Number => 4
    }

    function Prefix(): string {
      match this case Dev => "dev" case Alpha => "alpha" case Beta => "beta" case Rc => "rc" case Number => ""
    }

    function Scale(): nat {
      match this case Dev => 1 case Alpha => 10 case Beta => 100 case Rc => 1000 case Number => 10000
    }
  }

  datatype Qualifier = Qualifier(stage: Stage, number: nat)

  /** What a version string says, before any zero is dropped. */
  datatype Version = Version(primary: seq<nat>, qualifier: Option<Qualifier>)

  datatype Rank = Finite(scaled: nat) | Infinite

  datatype Key = Key(primary: seq<nat>, rank: Rank)

  const NULL_KEY := Key([], Infinite)

  // Order of keys

  predicate RankLess(a: Rank, b: Rank) {
    a.Finite? && (b.Finite? ==> a.scaled < b.scaled)
  }

  /** Tuple order: the first difference decides, and a proper prefix comes first. */
  predicate TupleLess(a: seq<nat>, b: seq<nat>) {
    if b == [] then false
    else if a == [] then true
    else a[0] < b[0] || (a[0] == b[0] && TupleLess(a[1..], b[1..]))
  }

  predicate KeyLess(a: Key, b: Key) {
    TupleLess(a.primary, b.primary) || (a.primary == b.primary && RankLess(a.rank, b.rank))
  }

  function Stripped(primary: seq<nat>): (r: seq<nat>)
    ensures r <= primary
    ensures r != [] ==> r[|r| - 1] != 0
    ensures forall i | |r| <= i < |primary| :: primary[i] == 0
  {
    if primary == [] || primary[|primary| - 1] != 0 then primary else Stripped(primary[..|primary| - 1])
  }

  function Scaled(stage: Stage, number: nat): Rank {
    Finite(number * stage.Scale())
  }

  function RankOf(q: Option<Qualifier>): Rank {
    match q
    case None => Infinite
    case Some(q) => Scaled(q.stage, q.number)
  }

  function VersionKey(v: Version): Key {
    Key(Stripped(v.primary), RankOf(v.qualifier))
  }

  /** Component `i`, with zeros after the last one that was written. */
  function Component(primary: seq<nat>, i: nat): nat {
    if i < |primary| then primary[i] else 0
  }

  ghost predicate SameComponents(p: seq<nat>, q: seq<nat>) {
    forall i: nat :: Component(p, i) == Component(q, i)
  }

  ghost predicate AgreeBelow(p: seq<nat>, q: seq<nat>, k: nat) {
    forall i: nat | i < k :: Component(p, i) == Component(q, i)
  }

  ghost predicate LessAt(p: seq<nat>, q: seq<nat>, k: nat) {
    AgreeBelow(p, q, k) && Component(p, k) < Component(q, k)
  }

  ghost predicate ComponentsLess(p: seq<nat>, q: seq<nat>) {
    exists k: nat :: LessAt(p, q, k)
  }

  /** The tuples first differ at k, where a has ended or has the smaller number. */
  ghost predicate DifferAt(a: seq<nat>, b: seq<nat>, k: nat) {
    && k < |b| && k <= |a|
    && (forall i | 0 <= i < k :: a[i] == b[i])
    && (k < |a| ==> a[k] < b[k])
  }

  lemma {:induction false} TupleLessMeans(a: seq<nat>, b: seq<nat>)
    ensures TupleLess(a, b) <==> exists k: nat :: DifferAt(a, b, k)
  {
    if a != [] && b != [] {
      TupleLessMeans(a[1..], b[1..]);
      if TupleLess(a, b) {
        if a[0] < b[0] {
          assert DifferAt(a, b, 0);
        } else {
          var k: nat :| DifferAt(a[1..], b[1..], k);
          assert forall i | 1 <= i < k + 1 :: a[i] == a[1..][i - 1] == b[1..][i - 1] == b[i];
          assert DifferAt(a, b, k + 1);
        }
      }
      if k: nat :| DifferAt(a, b, k) {
        assert k > 0 ==> DifferAt(a[1..], b[1..], k - 1);
      }
    } else if b != [] {
      assert DifferAt(a, b, 0);
    }
  }

  lemma StrippedComponents(p: seq<nat>)
    ensures SameComponents(Stripped(p), p)
  {
  }

  lemma NoLonger(a: seq<nat>, b: seq<nat>)
    requires SameComponents(a, b) && (a != [] ==> a[|a| - 1] != 0)
    ensures |a| <= |b|
  {
    if a != [] {
      assert Component(b, |a| - 1) == Component(a, |a| - 1) != 0;
    }
  }

  /** Two tuples without trailing zeros are equal exactly when they agree on every component. */
  lemma StrippedEqual(p: seq<nat>, q: seq<nat>)
    ensures Stripped(p) == Stripped(q) <==> SameComponents(p, q)
  {
    StrippedComponents(p);
    StrippedComponents(q);
    var a, b := Stripped(p), Stripped(q);
    if SameComponents(p, q) {
      assert forall i: nat :: Component(a, i) == Component(p, i) == Component(q, i) == Component(b, i);
      NoLonger(a, b);
      NoLonger(b, a);
      assert forall i | 0 <= i < |a| :: a[i] == Component(a, i) == Component(b, i) == b[i];
    } else {
      assert a == b ==> forall i: nat :: Component(p, i) == Component(a, i) == Component(b, i) == Component(q, i);
    }
  }

  /** The first component in which `q` is larger, when `p` is a proper prefix of `q`. */
  lemma {:induction false} FirstNonZero(p: seq<nat>, q: seq<nat>, from: nat) returns (k: nat)
    requires |p| <= from < |q| && q[|q| - 1] != 0
    requires AgreeBelow(p, q, from)
    ensures LessAt(p, q, k)
    decreases |q| - from
  {
    if q[from] != 0 {
      k := from;
    } else {
      k := FirstNonZero(p, q, from + 1);
    }
  }

  /** Order of the stripped tuples is numeric order, component by component, with unlimited zero padding. */
  lemma StrippedLess(p: seq<nat>, q: seq<nat>)
    ensures TupleLess(Stripped(p), Stripped(q)) <==> ComponentsLess(p, q)
  {
    var a, b := Stripped(p), Stripped(q);
    StrippedComponents(p);
    StrippedComponents(q);
    TupleLessMeans(a, b);
    if TupleLess(a, b) {
      var k: nat :| DifferAt(a, b, k);
      var j := k;
      if k == |a| {
        j := FirstNonZero(a, b, k);
      }
      assert LessAt(p, q, j);
    }
    if j: nat :| LessAt(p, q, j) {
      assert Component(b, j) == Component(q, j) > Component(a, j);
      var k := if |a| < j then |a| else j;
      forall i: nat | i < k ensures a[i] == b[i] {
        assert Component(a, i) == Component(b, i);
      }
      assert DifferAt(a, b, k);
    }
  }

  lemma {:induction false} TupleTrichotomy(a: seq<nat>, b: seq<nat>)
    ensures a == b || TupleLess(a, b) || TupleLess(b, a)
    ensures !(TupleLess(a, b) && TupleLess(b, a)) && (a == b ==> !TupleLess(a, b))
  {
    if a != [] && b != [] {
      TupleTrichotomy(a[1..], b[1..]);
      assert a == [a[0]] + a[1..] && b == [b[0]] + b[1..];
    }
  }

  lemma {:induction false} TupleTransitive(a: seq<nat>, b: seq<nat>, c: seq<nat>)
    requires TupleLess(a, b) && TupleLess(b, c)
    ensures TupleLess(a, c)
  {
    if a != [] {
      if a[0] == b[0] == c[0] {
        TupleTransitive(a[1..], b[1..], c[1..]);
      }
    }
  }

  /** Keys are totally ordered: exactly one of less, equal and greater holds. */
  lemma KeyTrichotomy(a: Key, b: Key)
    ensures a == b || KeyLess(a, b) || KeyLess(b, a)
    ensures !(KeyLess(a, b) && KeyLess(b, a)) && (a == b ==> !KeyLess(a, b))
  {
    TupleTrichotomy(a.primary, b.primary);
  }

  lemma KeyTransitive(a: Key, b: Key, c: Key)
    requires KeyLess(a, b) && KeyLess(b, c)
    ensures KeyLess(a, c)
  {
    if TupleLess(a.primary, b.primary) && TupleLess(b.primary, c.primary) {
      TupleTransitive(a.primary, b.primary, c.primary);
    }
  }

  /** What comparing two keys says about the versions they were made from. */
  lemma KeyOrderMeans(v: Version, w: Version)
    ensures VersionKey(v) == VersionKey(w) <==>
            SameComponents(v.primary, w.primary) && RankOf(v.qualifier) == RankOf(w.qualifier)
    ensures KeyLess(VersionKey(v), VersionKey(w)) <==>
            ComponentsLess(v.primary, w.primary) ||
            (SameComponents(v.primary, w.primary) && RankLess(RankOf(v.qualifier), RankOf(w.qualifier)))
  {
    StrippedEqual(v.primary, w.primary);
    StrippedLess(v.primary, w.primary);
  }

  /** The key of an invalid string is below exactly the versions with a non-zero component. */
  lemma NullBelowNonZero(v: Version)
    ensures KeyLess(NULL_KEY, VersionKey(v)) <==> exists i: nat :: Component(v.primary, i) != 0
    ensures KeyLess(VersionKey(v), NULL_KEY) <==>
            SameComponents(v.primary, []) && v.qualifier.Some?
  {
    KeyOrderMeans(v, Version([], None));
    KeyOrderMeans(Version([], None), v);
    if i: nat :| Component(v.primary, i) != 0 {
      KeyTrichotomy(VersionKey(v), NULL_KEY);
      assert Component([], i) == 0;
    }
  }

  // Order of qualifiers

  predicate QualifierLess(a: Qualifier, b: Qualifier) {
    RankLess(RankOf(Some(a)), RankOf(Some(b)))
  }

  /** How many numbers of the lower stage fit below number 1 of the higher one. */
  function Room(low: Stage, high: Stage): nat
    requires low.Level() <= high.Level()
  {
    high.Scale() / low.Scale()
  }

  /** Exactly when a qualifier of a lower stage is smaller than one of a higher stage. */
  lemma StageOrderExactly(a: Qualifier, b: Qualifier)
    requires a.stage.Level() <= b.stage.Level()
    ensures QualifierLess(a, b) <==> a.number < b.number * Room(a.stage, b.stage)
  {
  }

  /** Prefixed numbers up to `cap`, plain numbers from 1 on: stage first, then number. */
  predicate Within(q: Qualifier, cap: nat) {
    1 <= q.number && (q.stage.Number? || q.number <= cap)
  }

  predicate Intended(a: Qualifier, b: Qualifier) {
    a.stage.Level() < b.stage.Level() || (a.stage == b.stage && a.number < b.number)
  }

  ghost predicate OrderedUpTo(cap: nat) {
    forall a: Qualifier, b: Qualifier | Within(a, cap) && Within(b, cap) :: QualifierLess(a, b) <==> Intended(a, b)
  }

  /** dev < alpha < beta < rc < plain number holds up to 9, and no further: alpha10 ties with beta1. */
  lemma NineIsTheBound(cap: nat)
    ensures OrderedUpTo(cap) <==> cap <= 9
  {
    if cap > 9 {
      var a, b := Qualifier(Alpha, 10), Qualifier(Beta, 1);
      assert RankOf(Some(a)) == RankOf(Some(b));
      assert Within(a, cap) && Within(b, cap) && Intended(a, b) && !QualifierLess(a, b);
    }
  }

  /** A version without a qualifier is above the same version with any qualifier. */
  lemma QualifiedBelowPlain(primary: seq<nat>, q: Qualifier)
    ensures KeyLess(VersionKey(Version(primary, Some(q))), VersionKey(Version(primary, None)))
  {
  }

  // Reading a string

  /** The digits of an element; the pattern also lets one newline follow them. */
  function Chomped(t: string): string {
    if t != "" && t[|t| - 1] == '\n' then t[..|t| - 1] else t
  }

  predicate Numeral(t: string) {
    Chomped(t) != "" && AllDigits(Chomped(t))
  }

  function Value(t: string): nat
    requires Numeral(t)
  {
    Parse(Chomped(t))
  }

  predicate AllNumerals(texts: seq<string>) {
    forall i | 0 <= i < |texts| :: Numeral(texts[i])
  }

  function Values(texts: seq<string>): (r: seq<nat>)
    requires AllNumerals(texts)
    ensures |r| == |texts| && forall i | 0 <= i < |r| :: r[i] == Value(texts[i])
  {
    if texts == [] then [] else Values(texts[..|texts| - 1]) + [Value(texts[|texts| - 1])]
  }

  /** Where `c` first occurs, or the length of `s`. */
  function IndexOf(s: string, c: char): (k: nat)
    ensures k <= |s| && forall i | 0 <= i < k :: s[i] != c
    ensures k < |s| ==> s[k] == c
  {
    if s == "" || s[0] == c then 0
    else 1 + IndexOf(s[1..], c)
  }

  function Split(s: string, c: char): (parts: seq<string>)
    ensures parts != []
    decreases |s|
  {
    var k := IndexOf(s, c);
    if k == |s| then [s] else [s[..k]] + Split(s[k + 1..], c)
  }

  function Join(parts: seq<string>, c: char): string
    requires parts != []
  {
    if |parts| == 1 then parts[0] else parts[0] + [c] + Join(parts[1..], c)
  }

  function LowerChar(c: char): char {
    if 'A' <= c <= 'Z' then (c as int + 32) as char else c
  }

  function Lower(s: string): string {
    seq(|s|, i requires 0 <= i < |s| => LowerChar(s[i]))
  }

  function ReadNumber(stage: Stage, t: string): Option<Qualifier> {
    if Numeral(t) then Some(Qualifier(stage, Value(t))) else None
  }

  predicate Has(stage: Stage, t: string) {
    stage.Prefix() <= t
  }

  function ReadStage(stage: Stage, t: string): Option<Qualifier>
    requires Has(stage, t)
  {
    ReadNumber(stage, t[|stage.Prefix()|..])
  }

  function ReadQualifier(t: string): Option<Qualifier> {
    if Numeral(t) then ReadNumber(Number, t)
    else
      var low := Lower(t);
      if Has(Dev, low) then ReadStage(Dev, low)
      else if Has(Alpha, low) then ReadStage(Alpha, low)
      else if Has(Beta, low) then ReadStage(Beta, low)
      else if Has(Rc, low) then ReadStage(Rc, low)
      else None
  }

  function ReadVersion(s: string): Option<Version> {
    var dash := IndexOf(s, '-');
    var texts := Split(s[..dash], '.');
    if !AllNumerals(texts) then None
    else if dash == |s| then Some(Version(Values(texts), None))
    else
      match ReadQualifier(s[dash + 1..])
      case None => None
      case Some(q) => Some(Version(Values(texts), Some(q)))
  }

  function KeyOf(s: Option<string>): Key {
    match s
    case None => NULL_KEY
    case Some(s) => match ReadVersion(s) case None => NULL_KEY case Some(v) => VersionKey(v)
  }

  // The written form of a version

  predicate WritesQualifier(t: string, q: Qualifier) {
    var low := Lower(t);
    Has(q.stage, low) && Numeral(low[|q.stage.Prefix()|..]) && Value(low[|q.stage.Prefix()|..]) == q.number
  }

  /** `s` spells `v` as dot-separated numerals and, after a dash, the qualifier `tail`. */
  predicate Writes(s: string, v: Version, texts: seq<string>, tail: string) {
    && texts != [] && AllNumerals(texts) && Values(texts) == v.primary
    && (match v.qualifier
        case None => s == Join(texts, '.')
        case Some(q) => s == Join(texts, '.') + "-" + tail && WritesQualifier(tail, q))
  }

  lemma NumeralChars(t: string)
    requires Numeral(t)
    ensures forall i | 0 <= i < |t| :: IsDigit(t[i]) || t[i] == '\n'
  {
  }

  lemma LowerNumeral(t: string)
    ensures Numeral(t) <==> Numeral(Lower(t))
    ensures Numeral(t) ==> Lower(t) == t
  {
  }

  /** The same letters, small or capital: capitals are 32 below. */
  predicate SameLetters(written: string, word: string) {
    |written| == |word|
        && forall i | 0 <= i < |word| :: written[i] == word[i] || written[i] as int == word[i] as int - 32
  }

  /** The word of a stage, however capitalised. */
  predicate Names(written: string, stage: Stage) {
    match stage
    case Dev => SameLetters(written, "dev")
    case Alpha => SameLetters(written, "alpha")
    case Beta => SameLetters(written, "beta")
    case Rc => SameLetters(written, "rc")
    case Number => written == ""
  }

  /** A numeral is read as a plain number, or behind one of the four words, however capitalised, as of that stage. */
  lemma WordsAreRead(written: string, t: string, stage: Stage)
    requires Numeral(t) && Names(written, stage)
    ensures ReadQualifier(written + t) == Some(Qualifier(stage, Value(t)))
  {
    LowerNumeral(t);
    LowerAppend(written, t);
    assert (Lower(written) + t)[|written|..] == t;
    assert Lower(written) == stage.Prefix();
    ReadsQualifier(written + t, Qualifier(stage, Value(t)));
  }

  /** A numeral is a string of digits, not empty, and the newline that the pattern lets follow it. */
  lemma NumeralMeans(t: string, n: nat)
    ensures (Numeral(t) && Value(t) == n) <==>
            exists digits ::
                  digits != "" && AllDigits(digits) && Parse(digits) == n && (t == digits || t == digits + "\n")
  {
    if Numeral(t) {
      var digits := Chomped(t);
      assert t == digits || t == digits + "\n";
    }
    if digits :| digits != "" && AllDigits(digits) && Parse(digits) == n && (t == digits || t == digits + "\n") {
      assert IsDigit(digits[|digits| - 1]);
      assert (digits + "\n")[..|digits|] == digits;
    }
  }

  lemma LowerAppend(a: string, b: string)
    ensures Lower(a + b) == Lower(a) + Lower(b)
  {
  }

  /** Ten of one stage is one of the next: the factors are a tenth of one another, up to a plain number. */
  lemma TenIsOneAbove(n: nat)
    ensures RankOf(Some(Qualifier(Dev, 10 * n))) == RankOf(Some(Qualifier(Alpha, n)))
    ensures RankOf(Some(Qualifier(Alpha, 10 * n))) == RankOf(Some(Qualifier(Beta, n)))
    ensures RankOf(Some(Qualifier(Beta, 10 * n))) == RankOf(Some(Qualifier(Rc, n)))
    ensures RankOf(Some(Qualifier(Rc, 10 * n))) == RankOf(Some(Qualifier(Number, n)))
  {
  }

  /** Reading a qualifier finds exactly the one it writes. */
  lemma ReadsQualifier(t: string, q: Qualifier)
    ensures ReadQualifier(t) == Some(q) <==> WritesQualifier(t, q)
  {
    LowerNumeral(t);
    var low := Lower(t);
    assert low[0..] == low;
    if Numeral(t) {
      DigitsHaveNoPrefix(low);
    } else {
      OnePrefix(low);
    }
  }

  lemma DigitsHaveNoPrefix(t: string)
    requires t != "" && IsDigit(t[0])
    ensures forall p: Stage | p != Number :: !Has(p, t)
  {
  }

  /** No prefix starts another one, so at most one of them fits. */
  lemma OnePrefix(t: string)
    ensures forall p: Stage, q: Stage | p != Number && q != Number && Has(p, t) && Has(q, t) :: p == q
  {
    forall p: Stage, q: Stage | p != Number && q != Number && Has(p, t) && Has(q, t) ensures p == q {
      assert t[0] == p.Prefix()[0] && t[0] == q.Prefix()[0];
    }
  }

  /** Whichever prefix is found, its order among the others does not matter. */
  lemma ReadsByPrefix(t: string, stage: Stage)
    requires !Numeral(t) && stage != Number && Has(stage, Lower(t))
    ensures ReadQualifier(t) == ReadStage(stage, Lower(t))
  {
    OnePrefix(Lower(t));
  }

  lemma {:induction false} IndexOfFirst(s: string, t: string, c: char)
    requires c !in s
    ensures IndexOf(s, c) == |s| && IndexOf(s + [c] + t, c) == |s|
  {
    assert (s + [c] + t)[|s|] == c;
    assert forall i | 0 <= i < |s| :: (s + [c] + t)[i] == s[i] && s[i] in s;
  }

  lemma SplitAt(head: string, rest: string, c: char)
    requires c !in head
    ensures Split(head, c) == [head] && Split(head + [c] + rest, c) == [head] + Split(rest, c)
  {
    var s := head + [c] + rest;
    IndexOfFirst(head, rest, c);
    assert s[..|head|] == head && s[|head| + 1..] == rest;
  }

  lemma {:induction false} SplitJoin(parts: seq<string>, c: char)
    requires parts != [] && forall i | 0 <= i < |parts| :: c !in parts[i]
    ensures Split(Join(parts, c), c) == parts
  {
    if |parts| == 1 {
      IndexOfFirst(parts[0], "", c);
    } else {
      SplitAt(parts[0], Join(parts[1..], c), c);
      SplitJoin(parts[1..], c);
    }
  }

  lemma {:induction false} JoinSplit(s: string, c: char)
    ensures Join(Split(s, c), c) == s
    decreases |s|
  {
    var k := IndexOf(s, c);
    CutAt(s, c);
    if k < |s| {
      var parts := Split(s[k + 1..], c);
      JoinSplit(s[k + 1..], c);
      JoinMore(s[..k], parts, c);
    }
  }

  lemma JoinMore(head: string, parts: seq<string>, c: char)
    requires parts != []
    ensures Join([head] + parts, c) == head + [c] + Join(parts, c)
  {
  }

  lemma {:induction false} JoinHasNoDash(texts: seq<string>)
    requires texts != [] && AllNumerals(texts)
    ensures '-' !in Join(texts, '.')
  {
    NumeralChars(texts[0]);
    if |texts| > 1 {
      JoinHasNoDash(texts[1..]);
    }
  }

  /** A string that spells a version is read as that version. */
  lemma ReadsWhatIsWritten(s: string, v: Version, texts: seq<string>, tail: string)
    requires Writes(s, v, texts, tail)
    ensures ReadVersion(s) == Some(v) && KeyOf(Some(s)) == VersionKey(v)
  {
    var p := Join(texts, '.');
    PrimaryTexts(texts);
    CutBefore(p, tail);
    if v.qualifier.Some? {
      ReadsQualifier(tail, v.qualifier.value);
    }
  }

  lemma CutBefore(p: string, tail: string)
    requires '-' !in p
    ensures IndexOf(p, '-') == |p| && p[..|p|] == p
    ensures var s := p + "-" + tail; IndexOf(s, '-') == |p| && s[..|p|] == p && s[|p| + 1..] == tail
  {
    IndexOfFirst(p, tail, '-');
    assert p + ['-'] + tail == p + "-" + tail;
  }

  lemma PrimaryTexts(texts: seq<string>)
    requires texts != [] && AllNumerals(texts)
    ensures '-' !in Join(texts, '.') && Split(Join(texts, '.'), '.') == texts
  {
    JoinHasNoDash(texts);
    forall i | 0 <= i < |texts| ensures '.' !in texts[i] {
      NumeralChars(texts[i]);
    }
    SplitJoin(texts, '.');
  }

  lemma CutAt(s: string, c: char)
    ensures var k := IndexOf(s, c);
            s == if k == |s| then s[..k] else s[..k] + [c] + s[k + 1..]
  {
  }

  /** The texts out of which a version was read. */
  lemma ReadText(s: string, v: Version) returns (texts: seq<string>, tail: string)
    requires ReadVersion(s) == Some(v)
    ensures Writes(s, v, texts, tail)
  {
    var dash := IndexOf(s, '-');
    texts, tail := Split(s[..dash], '.'), "";
    JoinSplit(s[..dash], '.');
    CutAt(s, '-');
    if dash < |s| {
      tail := s[dash + 1..];
      ReadsQualifier(tail, v.qualifier.value);
    }
  }

  /** Only strings that spell a version are read, all others get the null key. */
  lemma ReadIsWritten(s: string)
    ensures match ReadVersion(s)
            case Some(v) => exists texts, tail :: Writes(s, v, texts, tail)
            case None => forall v, texts, tail :: !Writes(s, v, texts, tail)
  {
    match ReadVersion(s)
    case None =>
      forall v, texts, tail ensures !Writes(s, v, texts, tail) {
        if Writes(s, v, texts, tail) {
          ReadsWhatIsWritten(s, v, texts, tail);
        }
      }
    case Some(v) =>
      var texts, tail := ReadText(s, v);
  }

  function Printed(primary: seq<nat>): seq<string> {
    seq(|primary|, i requires 0 <= i < |primary| => Print(primary[i]))
  }

  lemma PrintedValues(primary: seq<nat>)
    ensures AllNumerals(Printed(primary)) && Values(Printed(primary)) == primary
  {
    var texts := Printed(primary);
    forall i | 0 <= i < |texts| ensures Numeral(texts[i]) && Value(texts[i]) == primary[i] {
      ParsePrint(primary[i]);
      PrintChomped(primary[i]);
    }
    assert Values(texts) == primary;
  }

  lemma PrintChomped(n: nat)
    ensures Chomped(Print(n)) == Print(n)
  {
  }

  /** The plain spelling of a version. */
  function Spell(v: Version): string
    requires v.primary != []
  {
    var primary := Join(Printed(v.primary), '.');
    match v.qualifier
    case None => primary
    case Some(q) => primary + "-" + (q.stage.Prefix() + Print(q.number))
  }

  /** Round trip: a version that is spelled out and read again is unchanged. */
  lemma SpellRead(v: Version)
    requires v.primary != []
    ensures ReadVersion(Spell(v)) == Some(v)
  {
    var texts := Printed(v.primary);
    PrintedValues(v.primary);
    match v.qualifier
    case None =>
      ReadsWhatIsWritten(Spell(v), v, texts, "");
    case Some(q) =>
      var tail := q.stage.Prefix() + Print(q.number);
      PrintedQualifier(q);
      ReadsWhatIsWritten(Spell(v), v, texts, tail);
  }

  lemma PrintedQualifier(q: Qualifier)
    ensures WritesQualifier(q.stage.Prefix() + Print(q.number), q)
  {
    var n := Print(q.number);
    var t := q.stage.Prefix() + n;
    ParsePrint(q.number);
    PrintChomped(q.number);
    assert Lower(t) == t;
    assert t[|q.stage.Prefix()|..] == n;
  }

  lemma Regroup<T>(a: seq<T>, b: seq<T>, c: seq<T>, d: seq<T>, e: seq<T>)
    ensures a + b + c + d + e == a + b + (c + d + e)
  {
  }

  lemma {:induction false} SplitAppend(s: string, t: string, c: char)
    ensures Split(s + [c] + t, c) == Split(s, c) + Split(t, c)
    decreases |s|
  {
    var k := IndexOf(s, c);
    CutAt(s, c);
    if k == |s| {
      SplitAt(s, t, c);
    } else {
      SplitAppend(s[k + 1..], t, c);
      Regroup(s[..k], [c], s[k + 1..], [c], t);
      SplitLonger(s[..k], s[k + 1..], s[k + 1..] + [c] + t, Split(t, c), c);
    }
  }

  lemma SplitLonger(head: string, rest: string, longer: string, more: seq<string>, c: char)
    requires c !in head && Split(longer, c) == Split(rest, c) + more
    ensures Split(head + [c] + longer, c) == Split(head + [c] + rest, c) + more
  {
    SplitAt(head, rest, c);
    SplitAt(head, longer, c);
    PartsRegroup(head, Split(rest, c), more);
  }

  lemma PartsRegroup(head: string, parts: seq<string>, more: seq<string>)
    ensures [head] + (parts + more) == [head] + parts + more
  {
  }

  function PrimaryKey(texts: seq<string>): Key {
    if AllNumerals(texts) then Key(Stripped(Values(texts)), Infinite) else NULL_KEY
  }

  lemma KeyWithoutDash(s: string)
    requires '-' !in s
    ensures KeyOf(Some(s)) == PrimaryKey(Split(s, '.'))
  {
    IndexOfFirst(s, "", '-');
    assert s[..|s|] == s;
  }

  lemma AllNumeralsAppend(texts: seq<string>, t: string)
    requires Numeral(t)
    ensures AllNumerals(texts + [t]) <==> AllNumerals(texts)
  {
    assert (texts + [t])[|texts|] == t;
    if AllNumerals(texts + [t]) {
      forall i | 0 <= i < |texts| ensures Numeral(texts[i]) {
        assert texts[i] == (texts + [t])[i];
      }
    }
  }

  lemma ExtraZero(texts: seq<string>)
    ensures PrimaryKey(texts + ["0"]) == PrimaryKey(texts)
  {
  }

  /** Writing another ".0" after an unqualified version string, valid or not, does not change its key. */
  lemma TrailingZeroIgnored(s: string)
    requires '-' !in s
    ensures KeyOf(Some(s + ".0")) == KeyOf(Some(s))
  {
    var z := s + ['.'] + "0";
    assert z == s + ".0";
    KeyWithoutDash(s);
    KeyWithoutDash(z);
    SplitAppend(s, "0", '.');
    IndexOfFirst("0", "", '.');
    assert Split("0", '.') == ["0"];
    ExtraZero(Split(s, '.'));
  }

  // The parser as it runs

  /** Every prefix once, in whatever order the dictionary yields them. */
  predicate IsPrefixTable(prefixes: seq<Stage>) {
    multiset(prefixes) == multiset{Dev, Alpha, Beta, Rc}
  }

  lemma TableMembers(prefixes: seq<Stage>)
    requires IsPrefixTable(prefixes)
    ensures forall p: Stage :: p in prefixes <==> p != Number
  {
  }

  lemma ValuesStep(texts: seq<string>, i: nat)
    requires i < |texts| && AllNumerals(texts[..i]) && Numeral(texts[i])
    ensures AllNumerals(texts[..i + 1]) && Values(texts[..i + 1]) == Values(texts[..i]) + [Value(texts[i])]
  {
    assert texts[..i + 1] == texts[..i] + [texts[i]];
    AllNumeralsAppend(texts[..i], texts[i]);
    assert texts[..i + 1][..i] == texts[..i];
  }

  method ParseNumbers(texts: seq<string>) returns (numbers: Option<seq<nat>>)
    ensures numbers == if AllNumerals(texts) then Some(Values(texts)) else None
  {
    var parsed: seq<nat> := [];
    for i := 0 to |texts|
      invariant AllNumerals(texts[..i]) && parsed == Values(texts[..i])
    {
      if !Numeral(texts[i]) {
        return None;
      }
      ValuesStep(texts, i);
      parsed := parsed + [Value(texts[i])];
    }
    assert texts[..|texts|] == texts;
    numbers := Some(parsed);
  }

  method RemoveRedundantZeros(primary: seq<nat>) returns (r: seq<nat>)
    ensures r == Stripped(primary)
  {
    r := primary;
    while r != [] && r[|r| - 1] == 0
      invariant Stripped(r) == Stripped(primary)
      decreases |r|
    {
      r := r[..|r| - 1];
    }
  }

  method ParseQualifier(t: string, prefixes: seq<Stage>) returns (rank: Option<Rank>)
    requires IsPrefixTable(prefixes)
    ensures rank == match ReadQualifier(t) case None => None case Some(q) => Some(RankOf(Some(q)))
  {
    if Numeral(t) {
      return Some(Scaled(Number, Value(t)));
    }
    TableMembers(prefixes);
    var low := Lower(t);
    for i := 0 to |prefixes|
      invariant forall j | 0 <= j < i :: !Has(prefixes[j], low)
    {
      var stage := prefixes[i];
      if Has(stage, low) {
        assert stage in prefixes;
        ReadsByPrefix(t, stage);
        var digits := low[|stage.Prefix()|..];
        if !Numeral(digits) {
          return None;
        }
        return Some(Scaled(stage, Value(digits)));
      }
    }
    assert forall p: Stage | p in prefixes :: !Has(p, low);
    assert !Has(Dev, low) && !Has(Alpha, low) && !Has(Beta, low) && !Has(Rc, low);
    return None;
  }

  method ParseVersionString(version: Option<string>, prefixes: seq<Stage>) returns (key: Key)
    requires IsPrefixTable(prefixes)
    ensures key == KeyOf(version)
  {
    if version.None? {
      return NULL_KEY;
    }
    var text := version.value;
    var dash := IndexOf(text, '-');
    var numbers := ParseNumbers(Split(text[..dash], '.'));
    if numbers.None? {
      return NULL_KEY;
    }
    var primary := RemoveRedundantZeros(numbers.value);
    if dash == |text| {
      return Key(primary, Infinite);
    }
    var rank := ParseQualifier(text[dash + 1..], prefixes);
    if rank.None? {
      return NULL_KEY;
    }
    return Key(primary, rank.value);
  }
}
