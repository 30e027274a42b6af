/** The synthetic task ids the strategies hand to the scheduler (`seq-0`, `bc-2`, ...), and reading them back. */
module StepNames {
  import opened Collections
  import opened Graphs

  const DIGITS: string := "0123456789"

  predicate IsDigits(s: string) {
    forall i :: 0 <= i < |s| ==> '0' <= s[i] <= '9'
  }

  function Decimal(n: nat): (s: string)
    ensures |s| > 0 && IsDigits(s)
  {
    if n < 10 then [DIGITS[n]] else Decimal(n / 10) + [DIGITS[n % 10]]
  }

  function DigitValue(c: char): nat
    requires '0' <= c <= '9'
  {
    c as int - '0' as int
  }

  function ValueOf(s: string): nat
    requires IsDigits(s)
  {
    if s == [] then 0 else ValueOf(s[..|s| - 1]) * 10 + DigitValue(s[|s| - 1])
  }

  lemma DigitRoundTrip(n: nat)
    requires n < 10
    ensures '0' <= DIGITS[n] <= '9' && DigitValue(DIGITS[n]) == n
  {
    if n < 5 {
      assert n == 0 || n == 1 || n == 2 || n == 3 || n == 4;
    } else {
      assert n == 5 || n == 6 || n == 7 || n == 8 || n == 9;
    }
  }

  lemma {:induction false} DecimalRoundTrip(n: nat)
    ensures ValueOf(Decimal(n)) == n
  {
    DigitRoundTrip(n % 10);
    if n >= 10 {
      DecimalRoundTrip(n / 10);
      assert Decimal(n)[..|Decimal(n)| - 1] == Decimal(n / 10);
    } else {
      assert Decimal(n)[..0] == [];
    }
  }

  // ----- step ids

  datatype StepKind = SeqStep | BroadcastStep | RelayStep | TurnStep

  function Prefix(kind: StepKind): string {
    match kind
    case SeqStep => "seq-"
    case BroadcastStep => "bc-"
    case RelayStep => "relay-"
    case TurnStep => "turn-"
  }

  function StepName(kind: StepKind, index: nat): Id {
    Id(Prefix(kind) + Decimal(index))
  }

  /** The digits after a prefix, when the whole id is that prefix and at least one digit. */
  function AfterPrefix(prefix: string, s: string): Option<nat> {
    if |s| > |prefix| && s[..|prefix|] == prefix && IsDigits(s[|prefix|..])
    then Some(ValueOf(s[|prefix|..]))
    else None
  }

  /** The index a step id carries; None for every other id. */
  function StepIndex(id: Id): Option<nat> {
    var seqIndex := AfterPrefix(Prefix(SeqStep), id.name);
    var bcIndex := AfterPrefix(Prefix(BroadcastStep), id.name);
    var turnIndex := AfterPrefix(Prefix(TurnStep), id.name);
    if seqIndex.Some? then seqIndex
    else if bcIndex.Some? then bcIndex
    else if turnIndex.Some? then turnIndex
    else AfterPrefix(Prefix(RelayStep), id.name)
  }

  lemma AfterOwnPrefix(kind: StepKind, index: nat)
    ensures AfterPrefix(Prefix(kind), StepName(kind, index).name) == Some(index)
  {
    var s := StepName(kind, index).name;
    assert s[..|Prefix(kind)|] == Prefix(kind) && s[|Prefix(kind)|..] == Decimal(index);
    DecimalRoundTrip(index);
  }

  lemma AfterOtherPrefix(kind: StepKind, other: StepKind, index: nat)
    requires kind != other
    ensures AfterPrefix(Prefix(other), StepName(kind, index).name) == None
  {
    var s, p := StepName(kind, index).name, Prefix(other);
    assert s[0] == Prefix(kind)[0] && p[0] != s[0];
    if |s| > |p| {
      assert s[..|p|][0] == s[0];
    }
  }

  /** Reading back a generated id gives its index, whatever the strategy. */
  lemma StepNameRoundTrip(kind: StepKind, index: nat)
    ensures StepIndex(StepName(kind, index)) == Some(index)
  {
    hide AfterPrefix, StepName, Prefix;
    AfterOwnPrefix(kind, index);
    forall other | other != kind
      ensures AfterPrefix(Prefix(other), StepName(kind, index).name) == None
    {
      AfterOtherPrefix(kind, other, index);
    }
  }

  /** Some strategy's prefix followed by these digits. */
  ghost predicate Spells(id: Id, kind: StepKind, digits: string) {
    id.name == Prefix(kind) + digits && digits != [] && IsDigits(digits)
  }

  lemma AfterPrefixIff(kind: StepKind, s: string, index: nat)
    ensures AfterPrefix(Prefix(kind), s) == Some(index) <==>
        exists digits :: Spells(Id(s), kind, digits) && ValueOf(digits) == index
  {
    var p := Prefix(kind);
    if AfterPrefix(p, s) == Some(index) {
      assert s == p + s[|p|..];
      assert Spells(Id(s), kind, s[|p|..]);
    }
    if digits :| Spells(Id(s), kind, digits) && ValueOf(digits) == index {
      assert s[..|p|] == p && s[|p|..] == digits;
    }
  }

  lemma OnePrefix(s: string, kind: StepKind, other: StepKind)
    requires AfterPrefix(Prefix(kind), s).Some? && AfterPrefix(Prefix(other), s).Some?
    ensures kind == other
  {
    assert s[..|Prefix(kind)|][0] == s[0] && s[..|Prefix(other)|][0] == s[0];
  }

  lemma SomePrefix(s: string, kind: StepKind)
    requires AfterPrefix(Prefix(kind), s).Some?
    ensures StepIndex(Id(s)) == AfterPrefix(Prefix(kind), s)
  {
    hide AfterPrefix, Prefix;
    forall other: StepKind | AfterPrefix(Prefix(other), s).Some?
      ensures other == kind
    {
      OnePrefix(s, kind, other);
    }
  }

  /** Exactly the ids that are a known prefix and at least one digit carry an index, namely those digits. */
  lemma StepIndexIff(id: Id, index: nat)
    ensures StepIndex(id) == Some(index) <==>
        exists kind, digits :: Spells(id, kind, digits) && ValueOf(digits) == index
  {
    hide AfterPrefix, Prefix, ValueOf;
    assert Id(id.name) == id;
    if StepIndex(id) == Some(index) {
      var kind :| AfterPrefix(Prefix(kind), id.name) == Some(index);
      AfterPrefixIff(kind, id.name, index);
    }
    if kind, digits :| Spells(id, kind, digits) && ValueOf(digits) == index {
      AfterPrefixIff(kind, id.name, index);
      SomePrefix(id.name, kind);
    }
  }

  /** Different steps have different ids. */
  lemma StepNameInjective(kind: StepKind, i: nat, j: nat)
    requires StepName(kind, i) == StepName(kind, j)
    ensures i == j
  {
    hide StepName;
    StepNameRoundTrip(kind, i);
    StepNameRoundTrip(kind, j);
  }
}
