/** The worker-type parser of docker/configure_workers_and_start.py. */
module Workers {
  import opened Basics

  // ----------------------------------------------------------------- strings

  predicate IsSpace(c: char) {
    var n := c as int;
    0x09 <= n <= 0x0d || 0x1c <= n <= 0x20 || n == 0x85 || n == 0xa0 || n == 0x1680
    || 0x2000 <= n <= 0x200a || n == 0x2028 || n == 0x2029 || n == 0x202f || n == 0x205f || n == 0x3000
  }

  /** str.strip */
  function Strip(s: string): string {
    if s == "" then ""
    else if IsSpace(s[0]) then Strip(s[1..])
    else if IsSpace(s[|s| - 1]) then Strip(s[..|s| - 1])
    else s
  }

  function IndexOf(s: string, c: char): (i: nat)
    requires c in s
    ensures i < |s| && s[i] == c && c !in s[..i]
  {
    if s[0] == c then 0 else 1 + IndexOf(s[1..], c)
  }

  /** split_and_strip_string without a limit. */
  function SplitStrip(s: string, c: char): (parts: seq<string>)
    ensures |parts| >= 1
    decreases |s|
  {
    if c !in s then [Strip(s)]
    else
      var i := IndexOf(s, c);
      [Strip(s[..i])] + SplitStrip(s[i + 1..], c)
  }

  /** No space at either end. */
  predicate Trim(s: string) {
    s == "" || (!IsSpace(s[0]) && !IsSpace(s[|s| - 1]))
  }

  /** `m` with spaces around it, `i` before and the rest from `j` on after. */
  ghost predicate PaddedAt(s: string, m: string, i: nat, j: nat) {
    && i <= j <= |s| && m == s[i..j]
    && (forall x :: 0 <= x < i ==> IsSpace(s[x])) && (forall x :: j <= x < |s| ==> IsSpace(s[x]))
  }

  ghost predicate Padded(s: string, m: string) {
    exists i, j :: PaddedAt(s, m, i, j)
  }

  lemma PadLeft(s: string, m: string, i: nat, j: nat)
    requires s != "" && IsSpace(s[0]) && PaddedAt(s[1..], m, i, j)
    ensures PaddedAt(s, m, i + 1, j + 1)
  {
    assert s[i + 1..j + 1] == s[1..][i..j];
    forall x | j + 1 <= x < |s| ensures IsSpace(s[x]) {
      assert s[x] == s[1..][x - 1];
    }
    forall x | 0 <= x < i + 1 ensures IsSpace(s[x]) {
      assert x > 0 ==> s[x] == s[1..][x - 1];
    }
  }

  lemma PadRight(s: string, m: string, i: nat, j: nat)
    requires s != "" && IsSpace(s[|s| - 1]) && PaddedAt(s[..|s| - 1], m, i, j)
    ensures PaddedAt(s, m, i, j)
  {
    var t := s[..|s| - 1];
    assert s[i..j] == t[i..j];
    forall x | j <= x < |s| ensures IsSpace(s[x]) {
      assert x < |s| - 1 ==> s[x] == t[x];
    }
  }

  /** Stripping takes spaces off both ends and nothing else. */
  lemma {:induction false} StripTrims(s: string)
    ensures Padded(s, Strip(s)) && Trim(Strip(s))
    decreases |s|
  {
    if s != "" && IsSpace(s[0]) {
      StripTrims(s[1..]);
      var i, j :| PaddedAt(s[1..], Strip(s), i, j);
      PadLeft(s, Strip(s), i, j);
    } else if s != "" && IsSpace(s[|s| - 1]) {
      StripTrims(s[..|s| - 1]);
      var i, j :| PaddedAt(s[..|s| - 1], Strip(s), i, j);
      PadRight(s, Strip(s), i, j);
    } else {
      assert PaddedAt(s, s, 0, |s|);
    }
  }

  lemma TrimmedStays(s: string)
    requires Trim(s)
    ensures Strip(s) == s
  {
  }

  lemma {:induction false} FirstIndex(before: string, c: char, after: string)
    requires c !in before
    ensures c in before + [c] + after && IndexOf(before + [c] + after, c) == |before|
  {
    var s := before + [c] + after;
    assert s[|before|] == c;
    if before != "" {
      FirstIndex(before[1..], c, after);
      assert s[1..] == before[1..] + [c] + after;
      assert s[0] == before[0];
    }
  }

  /** Splitting, from the front: what stands before the first separator, and the rest split. */
  lemma SplitsAtFirst(before: string, c: char, after: string)
    requires c !in before
    ensures SplitStrip(before, c) == [Strip(before)]
    ensures SplitStrip(before + [c] + after, c) == [Strip(before)] + SplitStrip(after, c)
  {
    var s := before + [c] + after;
    FirstIndex(before, c, after);
    assert s[..|before|] == before && s[|before| + 1..] == after;
  }

  lemma MoveRight(a: string, c: string, b: string, last: string)
    ensures (a + c + b) + c + last == a + c + (b + c + last)
  {
  }

  /** Splitting, from the back. */
  lemma {:induction false} SplitsAtLast(s: string, c: char, last: string)
    requires c !in last
    ensures SplitStrip(s + [c] + last, c) == SplitStrip(s, c) + [Strip(last)]
    decreases |s|
  {
    if c !in s {
      SplitsAtFirst(s, c, last);
      SplitsAtFirst(last, c, "");
    } else {
      var i := IndexOf(s, c);
      var front, rest := s[..i], s[i + 1..];
      assert s == front + [c] + rest;
      SplitsAtLast(rest, c, last);
      SplitsAtFirst(front, c, rest);
      SplitsAtFirst(front, c, rest + [c] + last);
      MoveRight(front, [c], rest, last);
    }
  }

  predicate IsDigit(c: char) {
    '0' <= c <= '9'
  }

  predicate IsNameChar(c: char) {
    'a' <= c <= 'z' || 'A' <= c <= 'Z' || IsDigit(c) || c == '_' || c == '+' || c == '-'
  }

  /** The regular expression for requested names: name characters only, the last not a digit. */
  predicate ValidName(s: string) {
    s != "" && (forall i :: 0 <= i < |s| ==> IsNameChar(s[i])) && !IsDigit(s[|s| - 1])
  }

  /** The ASCII codes of a-z, A-Z, the underscore, the plus sign and the hyphen. */
  predicate SignCode(n: int) {
    97 <= n <= 122 || 65 <= n <= 90 || n == 95 || n == 43 || n == 45
  }

  predicate DigitCode(n: int) {
    48 <= n <= 57
  }

  /** A valid name is signs and digits, and then one sign. */
  lemma ValidNameMatches(s: string)
    ensures ValidName(s) <==>
      && s != "" && SignCode(s[|s| - 1] as int)
      && forall i :: 0 <= i < |s| - 1 ==> SignCode(s[i] as int) || DigitCode(s[i] as int)
  {
    assert forall c: char :: IsDigit(c) <==> DigitCode(c as int);
    assert forall c: char :: IsNameChar(c) && !IsDigit(c) <==> SignCode(c as int);
  }

  predicate Less(a: string, b: string) {
    b != "" && (a == "" || a[0] < b[0] || (a[0] == b[0] && Less(a[1..], b[1..])))
  }

  lemma {:induction false} LessIsStrictOrder(a: string, b: string, c: string)
    ensures !Less(a, a)
    ensures Less(a, b) && Less(b, c) ==> Less(a, c)
    ensures Less(a, b) || a == b || Less(b, a)
    decreases |a|
  {
    if a != "" {
      if b != "" {
        LessIsStrictOrder(a[1..], b[1..], if c == "" then "" else c[1..]);
        assert a == [a[0]] + a[1..] && b == [b[0]] + b[1..];
      } else {
        LessIsStrictOrder(a[1..], "", "");
      }
    }
  }

  /** The strings first differ at `i`, where the first is smaller or at its end. */
  ghost predicate DiffersAt(a: string, b: string, i: nat) {
    && i <= |a| && i < |b| && a[..i] == b[..i]
    && (i == |a| || a[i] < b[i])
  }

  /** The order is that of the characters where the strings first differ. */
  lemma {:induction false} LessIsLexicographic(a: string, b: string)
    ensures Less(a, b) <==> exists i :: DiffersAt(a, b, i)
  {
    if b == "" {
    } else if a == "" || a[0] < b[0] {
      assert DiffersAt(a, b, 0);
    } else {
      LessIsLexicographic(a[1..], b[1..]);
      if a[0] == b[0] {
        if i: nat :| DiffersAt(a[1..], b[1..], i) {
          DiffersLater(a, b, i);
          assert DiffersAt(a, b, i + 1);
        }
        if i: nat :| DiffersAt(a, b, i) {
          assert i > 0;
          DiffersLater(a, b, i - 1);
          assert DiffersAt(a[1..], b[1..], i - 1);
        }
      } else {
        forall i: nat ensures !DiffersAt(a, b, i) {
          assert 0 < i <= |a| && i < |b| ==> a[..i][0] == a[0] && b[..i][0] == b[0];
        }
      }
    }
  }

  lemma DiffersLater(a: string, b: string, i: nat)
    requires a != "" && b != "" && a[0] == b[0]
    ensures DiffersAt(a, b, i + 1) <==> DiffersAt(a[1..], b[1..], i)
  {
    if i < |a| && i + 1 < |b| {
      assert a[..i + 1] == [a[0]] + a[1..][..i] && b[..i + 1] == [b[0]] + b[1..][..i];
      assert a[1..][..i] == a[..i + 1][1..] && b[1..][..i] == b[..i + 1][1..];
    }
  }

  ghost predicate Ascending(s: seq<string>) {
    forall i, j :: 0 <= i < j < |s| ==> Less(s[i], s[j])
  }

  /** Insertion into an ascending list, dropping a duplicate. */
  function Insert(x: string, s: seq<string>): seq<string> {
    if s == [] then [x]
    else if x == s[0] then s
    else if Less(x, s[0]) then [x] + s
    else [s[0]] + Insert(x, s[1..])
  }

  /** sorted(set(parts)) */
  function Sorted(parts: seq<string>): seq<string> {
    if parts == [] then [] else Insert(parts[0], Sorted(parts[1..]))
  }

  lemma {:induction false} InsertSorts(x: string, s: seq<string>)
    requires Ascending(s)
    ensures Ascending(Insert(x, s)) && forall y :: y in Insert(x, s) <==> y == x || y in s
  {
    if s != [] {
      var r := Insert(x, s);
      LessIsStrictOrder(x, s[0], "");
      assert s == [s[0]] + s[1..];
      if Less(x, s[0]) {
        forall j | 0 <= j < |s| ensures Less(x, s[j]) { LessIsStrictOrder(x, s[0], s[j]); }
      } else if x != s[0] {
        InsertSorts(x, s[1..]);
        var rest := Insert(x, s[1..]);
        forall j | 0 <= j < |rest| ensures Less(s[0], rest[j]) {
          assert rest[j] in rest;
          if rest[j] != x { assert rest[j] in s[1..]; }
        }
      }
    }
  }

  lemma {:induction false} SortedSorts(parts: seq<string>)
    ensures Ascending(Sorted(parts)) && forall y :: y in Sorted(parts) <==> y in parts
  {
    if parts != [] {
      SortedSorts(parts[1..]);
      InsertSorts(parts[0], Sorted(parts[1..]));
    }
  }

  /** An ascending list is determined by its members, so the generated name depends only on
      the set of types. */
  lemma {:induction false} AscendingIsUnique(a: seq<string>, b: seq<string>)
    requires Ascending(a) && Ascending(b) && forall y :: y in a <==> y in b
    ensures a == b
  {
    assert a != [] ==> a[0] in a;
    assert b != [] ==> b[0] in b;
    if a != [] && b != [] {
      assert a[0] in b && b[0] in a;
      FirstIsLeast(a, b[0]);
      FirstIsLeast(b, a[0]);
      LessIsStrictOrder(a[0], b[0], a[0]);
      TailHas(a);
      TailHas(b);
      AscendingIsUnique(a[1..], b[1..]);
      assert a == [a[0]] + a[1..] && b == [b[0]] + b[1..];
    }
  }

  lemma FirstIsLeast(a: seq<string>, x: string)
    requires Ascending(a) && x in a
    ensures a[0] == x || Less(a[0], x)
  {
  }

  lemma TailHas(a: seq<string>)
    requires Ascending(a) && a != []
    ensures forall y :: y in a[1..] <==> y in a && y != a[0]
  {
    forall y ensures y in a[1..] <==> y in a && y != a[0] {
      assert a == [a[0]] + a[1..];
      LessIsStrictOrder(a[0], a[0], a[0]);
    }
  }

  /** "+".join */
  function Join(parts: seq<string>): string {
    if parts == [] then ""
    else if |parts| == 1 then parts[0]
    else Join(parts[..|parts| - 1]) + ['+'] + parts[|parts| - 1]
  }

  ghost predicate Clean(parts: seq<string>) {
    forall i :: 0 <= i < |parts| ==> '+' !in parts[i] && Trim(parts[i])
  }

  /** Splitting undoes joining. */
  lemma {:induction false} SplitUndoesJoin(parts: seq<string>)
    requires parts != [] && Clean(parts)
    ensures SplitStrip(Join(parts), '+') == parts
  {
    var n := |parts| - 1;
    if n == 0 {
      TrimmedStays(parts[0]);
      SplitsAtFirst(parts[0], '+', "");
    } else {
      SplitUndoesJoin(parts[..n]);
      SplitJoined(parts[..n], parts[n]);
      assert parts == parts[..n] + [parts[n]];
    }
  }

  lemma SplitJoined(front: seq<string>, last: string)
    requires front != [] && SplitStrip(Join(front), '+') == front && '+' !in last && Trim(last)
    ensures SplitStrip(Join(front + [last]), '+') == front + [last]
  {
    assert (front + [last])[..|front|] == front;
    TrimmedStays(last);
    SplitsAtLast(Join(front), '+', last);
  }

  // ---------------------------------------------------------- decimal suffixes

  function Decimal(n: nat): string {
    if n < 10 then [DigitOf(n)] else Decimal(n / 10) + [DigitOf(n % 10)]
  }

  function DigitOf(d: nat): (c: char)
    requires d < 10
    ensures IsDigit(c) && c as int == '0' as int + d
  {
    ('0' as int + d) as char
  }

  function DigitValue(c: char): nat
    requires IsDigit(c)
  {
    assert c as int >= '0' as int;
    c as int - '0' as int
  }

  /** The number that a string of digits denotes. */
  function Value(s: string): nat
    requires forall i :: 0 <= i < |s| ==> IsDigit(s[i])
  {
    if s == "" then 0 else 10 * Value(s[..|s| - 1]) + DigitValue(s[|s| - 1])
  }

  lemma {:induction false} DecimalDenotes(n: nat)
    ensures Decimal(n) != "" && (forall i :: 0 <= i < |Decimal(n)| ==> IsDigit(Decimal(n)[i]))
    ensures Value(Decimal(n)) == n && (n > 0 ==> Decimal(n)[0] != '0') && (n == 0 ==> Decimal(n) == "0")
  {
    if n >= 10 {
      DecimalDenotes(n / 10);
      assert Decimal(n)[..|Decimal(n)| - 1] == Decimal(n / 10);
    } else {
      assert Decimal(n)[..0] == "";
    }
  }

  predicate EndsInNonDigit(s: string) {
    s != "" && !IsDigit(s[|s| - 1])
  }

  lemma BaseIsNoShorter(a: string, x: string, b: string, y: string)
    requires a + x == b + y && EndsInNonDigit(b) && forall i :: 0 <= i < |x| ==> IsDigit(x[i])
    ensures |b| <= |a|
  {
    assert (a + x)[|b| - 1] == b[|b| - 1];
  }

  /** A base that does not end in a digit and a number can be told apart again. */
  lemma NamesAreInjective(a: string, m: nat, b: string, n: nat)
    requires EndsInNonDigit(a) && EndsInNonDigit(b) && a + Decimal(m) == b + Decimal(n)
    ensures a == b && m == n
  {
    var name, x, y := a + Decimal(m), Decimal(m), Decimal(n);
    DecimalDenotes(m);
    DecimalDenotes(n);
    BaseIsNoShorter(a, x, b, y);
    BaseIsNoShorter(b, y, a, x);
    assert a == name[..|a|] && b == name[..|a|];
    assert x == name[|a|..] && y == name[|a|..];
  }

  // -------------------------------------------------------------- the requests

  const WORKER_TYPES: set<string> := {
    "pusher", "user_dir", "media_repository", "appservice", "federation_sender", "synchrotron", "client_reader",
    "federation_reader", "federation_inbound", "event_persister", "background_worker", "event_creator",
    "frontend_proxy", "account_data", "presence", "receipts", "to_device", "typing", "push_rules"}

  /** is_sharding_allowed_for_worker_type */
  predicate ShardingAllowed(t: string) {
    t !in ["background_worker", "account_data", "presence", "receipts", "typing", "to_device"]
  }

  datatype Request = Request(base: string, types: set<string>)

  /** One requested worker: its base name and its types, None when it is rejected by itself. */
  function Parse(s: string): Option<Request> {
    var parts := if '=' in s then SplitStrip(s, '=') else [s];
    if |parts| > 2 || (|parts| == 2 && !ValidName(parts[0])) then None
    else
      var types := Sorted(SplitStrip(parts[|parts| - 1], '+'));
      if exists t :: t in types && t !in WORKER_TYPES then None
      else Some(Request(if |parts| == 2 then parts[0] else Join(types), set t | t in types))
  }

  lemma {:induction false} JoinEnds(parts: seq<string>)
    requires parts != [] && EndsInNonDigit(parts[|parts| - 1])
    ensures EndsInNonDigit(Join(parts))
  {
  }

  lemma TypesEndInNonDigit(t: string)
    requires t in WORKER_TYPES
    ensures EndsInNonDigit(t)
  {
  }

  lemma BasesEndInNonDigit(s: string)
    requires Parse(s).Some?
    ensures EndsInNonDigit(Parse(s).value.base)
  {
    var parts := if '=' in s then SplitStrip(s, '=') else [s];
    if |parts| != 2 {
      var split := SplitStrip(parts[|parts| - 1], '+');
      SortedSorts(split);
      var types := Sorted(split);
      assert split[0] in split && split[0] in types;
      TypesEndInNonDigit(types[|types| - 1]);
      JoinEnds(types);
    }
  }

  ghost predicate AllKnown(parts: seq<string>) {
    forall i :: 0 <= i < |parts| ==> parts[i] in WORKER_TYPES
  }

  function SetOf(parts: seq<string>): set<string> {
    set i | 0 <= i < |parts| :: parts[i]
  }

  /** A request without a name: its types are the parts between plus signs, which must all be
      known, and its base name lists them once each in order. */
  lemma ParsePlain(s: string)
    requires '=' !in s
    ensures Parse(s).Some? <==> AllKnown(SplitStrip(s, '+'))
    ensures Parse(s).Some? ==>
      && Parse(s).value.types == SetOf(SplitStrip(s, '+'))
      && exists sorted ::
           Ascending(sorted) && SetOf(sorted) == Parse(s).value.types && Parse(s).value.base == Join(sorted)
  {
    var parts := SplitStrip(s, '+');
    SortedSorts(parts);
    SortedAsSet(parts);
    assert AllKnown(parts) <==> forall t :: t in Sorted(parts) ==> t in WORKER_TYPES;
    if Parse(s).Some? {
      assert Ascending(Sorted(parts)) && SetOf(Sorted(parts)) == Parse(s).value.types;
    }
  }

  lemma SortedAsSet(parts: seq<string>)
    ensures SetOf(Sorted(parts)) == SetOf(parts) == set t | t in Sorted(parts)
  {
    SortedSorts(parts);
    forall t ensures t in SetOf(Sorted(parts)) <==> t in SetOf(parts) {
      assert t in SetOf(parts) <==> t in parts;
      assert t in SetOf(Sorted(parts)) <==> t in Sorted(parts);
    }
  }

  /** A request with a name: the name before the equals sign is the base name, if it is a valid
      one, and the types are those after it. A second equals sign is an error. */
  lemma ParseNamed(name: string, types: string, more: string)
    requires '=' !in name && '=' !in types
    ensures Parse(name + ['='] + types).Some? <==> ValidName(Strip(name)) && AllKnown(SplitStrip(Strip(types), '+'))
    ensures Parse(name + ['='] + types).Some? ==>
      Parse(name + ['='] + types) == Some(Request(Strip(name), SetOf(SplitStrip(Strip(types), '+'))))
    ensures Parse(name + ['='] + (types + ['='] + more)).None?
  {
    SplitsAtFirst(name, '=', types);
    SplitsAtFirst(types, '=', more);
    SplitsAtFirst(name, '=', types + ['='] + more);
    FirstIndex(name, '=', types);
    FirstIndex(name, '=', types + ['='] + more);
    var parts := SplitStrip(Strip(types), '+');
    SortedSorts(parts);
    SortedAsSet(parts);
    assert AllKnown(parts) <==> forall t :: t in Sorted(parts) ==> t in WORKER_TYPES;
  }

  lemma TypesAreClean(t: string)
    requires t in WORKER_TYPES
    ensures '+' !in t && '=' !in t && Trim(t)
  {
    TypesHaveNoPlus(t);
    TypesHaveNoEquals(t);
    TypesAreTrim(t);
  }

  lemma TypesHaveNoPlus(t: string)
    requires t in WORKER_TYPES
    ensures '+' !in t
  {
  }

  lemma TypesHaveNoEquals(t: string)
    requires t in WORKER_TYPES
    ensures '=' !in t
  {
  }

  lemma TypesAreTrim(t: string)
    requires t in WORKER_TYPES
    ensures Trim(t)
  {
  }

  lemma {:induction false} JoinIsClean(parts: seq<string>)
    requires AllKnown(parts)
    ensures '=' !in Join(parts)
  {
    if |parts| == 1 {
      TypesAreClean(parts[0]);
    } else if parts != [] {
      JoinIsClean(parts[..|parts| - 1]);
      TypesAreClean(parts[|parts| - 1]);
    }
  }

  /** Requesting a worker by a generated base name requests the same types again, under the
      same base name. */
  lemma GeneratedNameParsesBack(s: string)
    requires '=' !in s && Parse(s).Some?
    ensures Parse(Parse(s).value.base) == Parse(s)
  {
    var parts := SplitStrip(s, '+');
    var sorted := Sorted(parts);
    ParsePlain(s);
    SortedSorts(parts);
    assert parts[0] in parts && parts[0] in sorted;
    assert AllKnown(sorted);
    forall i | 0 <= i < |sorted| ensures '+' !in sorted[i] && Trim(sorted[i]) {
      TypesAreClean(sorted[i]);
    }
    assert Clean(sorted);
    SplitUndoesJoin(sorted);
    JoinIsClean(sorted);
    SortedSorts(sorted);
    AscendingIsUnique(Sorted(sorted), sorted);
  }

  // ---------------------------------------------------------------- multipliers

  /** Copies of a request; a count of zero or less gives none. */
  function Copies(s: string, n: int): seq<string> {
    if n <= 0 then [] else seq(n, _ => s)
  }

  /** The count that a request carries after its first colon. `parseInt` is Python's int() on a
      string. */
  function CountOf(s: string, parseInt: string -> Option<int>): Option<int>
    requires ':' in s
  {
    parseInt(Strip(s[IndexOf(s, ':') + 1..]))
  }

  function BeforeColon(s: string): string
    requires ':' in s
  {
    Strip(s[..IndexOf(s, ':')])
  }

  /** The expansion of one request: "type:count" stands for count copies. */
  function ExpandOne(s: string, parseInt: string -> Option<int>): Option<seq<string>> {
    if ':' !in s then Some([s])
    else
      var count := CountOf(s, parseInt);
      if count.None? then None else Some(Copies(BeforeColon(s), count.value))
  }

  function Expand(requests: seq<string>, parseInt: string -> Option<int>): Option<seq<string>> {
    if requests == [] then Some([])
    else
      var n := |requests| - 1;
      var front, last := Expand(requests[..n], parseInt), ExpandOne(requests[n], parseInt);
      if front.Some? && last.Some? then Some(front.value + last.value) else None
  }

  predicate Unreadable(s: string, parseInt: string -> Option<int>) {
    ':' in s && CountOf(s, parseInt).None?
  }

  predicate Negative(s: string, parseInt: string -> Option<int>) {
    ':' in s && CountOf(s, parseInt).Some? && CountOf(s, parseInt).value < 0
  }

  /** The source's comment promises an error for the request. */
  predicate ErrorPromised(s: string, parseInt: string -> Option<int>) {
    Unreadable(s, parseInt) || Negative(s, parseInt)
  }

  /** The request asks for at least one worker written as `x`. */
  predicate AsksFor(s: string, x: string, parseInt: string -> Option<int>) {
    if ':' in s then CountOf(s, parseInt).Some? && CountOf(s, parseInt).value > 0 && BeforeColon(s) == x else s == x
  }

  predicate SomeUnreadable(requests: seq<string>, parseInt: string -> Option<int>) {
    exists i :: 0 <= i < |requests| && Unreadable(requests[i], parseInt)
  }

  predicate SomeNegative(requests: seq<string>, parseInt: string -> Option<int>) {
    exists i :: 0 <= i < |requests| && Negative(requests[i], parseInt)
  }

  predicate SomeErrorPromised(requests: seq<string>, parseInt: string -> Option<int>) {
    exists i :: 0 <= i < |requests| && ErrorPromised(requests[i], parseInt)
  }

  /** The expansion fails exactly when some count cannot be read. */
  lemma {:induction false} ExpandFailsExactly(requests: seq<string>, parseInt: string -> Option<int>)
    ensures Expand(requests, parseInt).None? <==> SomeUnreadable(requests, parseInt)
  {
    if requests != [] {
      var n := |requests| - 1;
      ExpandFailsExactly(requests[..n], parseInt);
      if i :| 0 <= i < n && Unreadable(requests[..n][i], parseInt) {
        assert Unreadable(requests[i], parseInt);
      }
      if i :| 0 <= i < n && Unreadable(requests[i], parseInt) {
        assert Unreadable(requests[..n][i], parseInt);
      }
    }
  }

  /** Otherwise it holds exactly the workers asked for. */
  lemma {:induction false} ExpandHoldsExactly(requests: seq<string>, parseInt: string -> Option<int>, x: string)
    requires Expand(requests, parseInt).Some?
    ensures x in Expand(requests, parseInt).value <==>
      exists i :: 0 <= i < |requests| && AsksFor(requests[i], x, parseInt)
  {
    if requests != [] {
      var n := |requests| - 1;
      ExpandHoldsExactly(requests[..n], parseInt, x);
      OneHoldsExactly(requests[n], parseInt, x);
      if i :| 0 <= i < n && AsksFor(requests[..n][i], x, parseInt) {
        assert AsksFor(requests[i], x, parseInt);
      }
      if i :| 0 <= i < n && AsksFor(requests[i], x, parseInt) {
        assert AsksFor(requests[..n][i], x, parseInt);
      }
    }
  }

  /** How many workers written as `x` the request asks for. */
  function Times(s: string, x: string, parseInt: string -> Option<int>): nat {
    if ':' !in s then (if s == x then 1 else 0)
    else
      var count := CountOf(s, parseInt);
      if count.Some? && count.value > 0 && BeforeColon(s) == x then count.value else 0
  }

  function TotalTimes(requests: seq<string>, x: string, parseInt: string -> Option<int>): nat {
    if requests == [] then 0
    else TotalTimes(requests[..|requests| - 1], x, parseInt) + Times(requests[|requests| - 1], x, parseInt)
  }

  lemma {:induction false} CopiesCount(s: string, n: nat, x: string)
    ensures multiset(Copies(s, n))[x] == if s == x then n else 0
  {
    if n > 0 {
      CopiesCount(s, n - 1, x);
      assert Copies(s, n) == Copies(s, n - 1) + [s];
    }
  }

  lemma OneCounts(s: string, x: string, parseInt: string -> Option<int>)
    requires ExpandOne(s, parseInt).Some?
    ensures multiset(ExpandOne(s, parseInt).value)[x] == Times(s, x, parseInt)
  {
    if ':' in s && CountOf(s, parseInt).value > 0 {
      CopiesCount(BeforeColon(s), CountOf(s, parseInt).value, x);
    }
  }

  /** The expansion holds each worker as many times as the requests together ask for it. */
  lemma {:induction false} ExpandCounts(requests: seq<string>, x: string, parseInt: string -> Option<int>)
    requires Expand(requests, parseInt).Some?
    ensures multiset(Expand(requests, parseInt).value)[x] == TotalTimes(requests, x, parseInt)
  {
    if requests != [] {
      var n := |requests| - 1;
      ExpandCounts(requests[..n], x, parseInt);
      OneCounts(requests[n], x, parseInt);
    }
  }

  /** A request with a count is what stands before its first colon, as often as what stands
      after it says. */
  lemma AtFirstColon(before: string, after: string, parseInt: string -> Option<int>)
    requires ':' !in before
    ensures BeforeColon(before + [':'] + after) == Strip(before)
    ensures CountOf(before + [':'] + after, parseInt) == parseInt(Strip(after))
  {
    var s := before + [':'] + after;
    FirstIndex(before, ':', after);
    assert s[..|before|] == before && s[|before| + 1..] == after;
  }

  lemma OneHoldsExactly(s: string, parseInt: string -> Option<int>, x: string)
    requires ExpandOne(s, parseInt).Some?
    ensures x in ExpandOne(s, parseInt).value <==> AsksFor(s, x, parseInt)
  {
    if ':' in s && CountOf(s, parseInt).value > 0 {
      assert Copies(BeforeColon(s), CountOf(s, parseInt).value)[0] == BeforeColon(s);
    }
  }

  /** The promise of an error for a count that cannot be read or is negative is kept for a list
      of requests if and only if no count is negative or some count cannot be read: a negative
      count alone is taken for zero. */
  lemma NegativeCountPromise(requests: seq<string>, parseInt: string -> Option<int>)
    ensures (Expand(requests, parseInt).None? <==> SomeErrorPromised(requests, parseInt))
       <==> (!SomeNegative(requests, parseInt) || SomeUnreadable(requests, parseInt))
    ensures |requests| == 1 ==>
      ((Expand(requests, parseInt).None? <==> ErrorPromised(requests[0], parseInt)) <==>
        !Negative(requests[0], parseInt))
  {
    ExpandFailsExactly(requests, parseInt);
    PromisesSplit(requests, parseInt);
  }

  lemma PromisesSplit(requests: seq<string>, parseInt: string -> Option<int>)
    ensures SomeErrorPromised(requests, parseInt) <==>
      SomeUnreadable(requests, parseInt) || SomeNegative(requests, parseInt)
  {
    if i :| 0 <= i < |requests| && Unreadable(requests[i], parseInt) {
      assert ErrorPromised(requests[i], parseInt);
    }
    if i :| 0 <= i < |requests| && Negative(requests[i], parseInt) {
      assert ErrorPromised(requests[i], parseInt);
    }
  }

  /** Such lists: every single request with a negative count is accepted and gives nothing. */
  lemma NegativeCountIsAccepted(before: string, count: string, parseInt: string -> Option<int>)
    requires ':' !in before && parseInt(Strip(count)).Some? && parseInt(Strip(count)).value < 0
    ensures Negative(before + ":" + count, parseInt)
    ensures Expand([before + ":" + count], parseInt) == Some([])
  {
    var s := before + ":" + count;
    FirstIndex(before, ':', count);
    AtFirstColon(before, count, parseInt);
    assert s == before + [':'] + count;
    var one, none: seq<string> := [s], [];
    assert one[..0] == none && Expand(none, parseInt) == Some(none);
    assert ExpandOne(one[0], parseInt) == Some(none) && none + none == none;
  }

  lemma MinusOnePushers(parseInt: string -> Option<int>)
    requires parseInt("-1") == Some(-1)
    ensures Expand(["pusher" + ":" + "-1"], parseInt) == Some([])
  {
    assert Strip("-1") == "-1";
    NegativeCountIsAccepted("pusher", "-1", parseInt);
  }

  /** apply_requested_multiplier_for_worker */
  method ApplyMultipliers(requests: seq<string>, parseInt: string -> Option<int>) returns (r: Option<seq<string>>)
    ensures r == Expand(requests, parseInt)
    ensures r.None? <==> SomeUnreadable(requests, parseInt)
  {
    ExpandFailsExactly(requests, parseInt);
    var expanded := [];
    for i := 0 to |requests|
      invariant Expand(requests[..i], parseInt) == Some(expanded)
    {
      assert requests[..i + 1][..i] == requests[..i];
      var s := requests[i];
      if ':' in s {
        var count := CountOf(s, parseInt);
        if count.None? {
          assert Unreadable(requests[i], parseInt);
          return None;
        }
        expanded := AppendCopies(expanded, BeforeColon(s), count.value);
      } else {
        expanded := expanded + [s];
      }
    }
    assert requests[..|requests|] == requests;
    r := Some(expanded);
  }

  /** The loop that appends the copies. */
  method AppendCopies(before: seq<string>, s: string, count: int) returns (after: seq<string>)
    ensures after == before + Copies(s, count)
  {
    after := before;
    var copied := 0;
    while copied < count
      invariant 0 <= copied && (copied <= count || (copied == 0 && count < 0))
      invariant after == before + Copies(s, copied)
    {
      assert Copies(s, copied + 1) == Copies(s, copied) + [s];
      after := after + [s];
      copied := copied + 1;
    }
  }

  // ------------------------------------------------------------------- the parser

  /** How many of the first `n` requests have the given base name. */
  function Uses(rs: seq<Request>, n: nat, base: string): nat
    requires n <= |rs|
  {
    if n == 0 then 0 else Uses(rs, n - 1, base) + if rs[n - 1].base == base then 1 else 0
  }

  /** Which of the first `n` requests have the given base name. */
  ghost function WithBase(rs: seq<Request>, n: nat, base: string): set<nat>
    requires n <= |rs|
  {
    set j: nat | j < n && rs[j].base == base
  }

  lemma {:induction false} UsesCounts(rs: seq<Request>, n: nat, base: string)
    requires n <= |rs|
    ensures Uses(rs, n, base) == |WithBase(rs, n, base)|
  {
    if n > 0 {
      UsesCounts(rs, n - 1, base);
      if rs[n - 1].base == base {
        assert WithBase(rs, n, base) == WithBase(rs, n - 1, base) + {n - 1};
      } else {
        assert WithBase(rs, n, base) == WithBase(rs, n - 1, base);
      }
    }
  }

  function Numbered(base: string, n: nat): string {
    base + Decimal(n)
  }

  /** The name of worker `i`: its base name and its number among those with that base name. */
  function NameOf(rs: seq<Request>, i: nat): string
    requires i < |rs|
  {
    Numbered(rs[i].base, Uses(rs, i, rs[i].base) + 1)
  }

  /** No unshardable type is requested twice, and equal base names have equal types. */
  ghost predicate Compatible(a: Request, b: Request) {
    && (forall t :: t in a.types && t in b.types ==> ShardingAllowed(t))
    && (a.base == b.base ==> a.types == b.types)
  }

  ghost predicate AllCompatible(rs: seq<Request>) {
    forall i, j :: 0 <= i < j < |rs| ==> Compatible(rs[i], rs[j])
  }

  ghost predicate ParsesTo(strings: seq<string>, rs: seq<Request>) {
    |rs| == |strings| && forall i :: 0 <= i < |rs| ==> Parse(strings[i]) == Some(rs[i])
  }

  /** `workers` has exactly one entry for each request, under the given names. */
  ghost predicate OneEach(workers: map<string, set<string>>, rs: seq<Request>, names: seq<string>) {
    && |workers| == |rs| == |names|
    && (forall i :: 0 <= i < |rs| ==> names[i] in workers && workers[names[i]] == rs[i].types)
    && (forall w :: w in workers ==> w in names)
    && (forall i, j :: 0 <= i < j < |rs| ==> names[i] != names[j])
  }

  /** The names are the base names with their numbers. */
  ghost predicate Named(rs: seq<Request>, names: seq<string>) {
    |names| == |rs| && forall i :: 0 <= i < |rs| ==> names[i] == NameOf(rs, i)
  }

  lemma {:induction false} UsesGrows(rs: seq<Request>, m: nat, n: nat, base: string)
    requires m <= n <= |rs|
    ensures Uses(rs, m, base) <= Uses(rs, n, base)
  {
    if m < n { UsesGrows(rs, m, n - 1, base); }
  }

  lemma {:induction false} UsesPrefix(rs: seq<Request>, q: Request, n: nat, base: string)
    requires n <= |rs|
    ensures Uses(rs + [q], n, base) == Uses(rs, n, base)
  {
    if n > 0 { UsesPrefix(rs, q, n - 1, base); }
  }

  /** The first request with a base name that is in use. */
  lemma {:induction false} FirstUse(rs: seq<Request>, n: nat, base: string) returns (i: nat)
    requires n <= |rs| && Uses(rs, n, base) >= 1
    ensures i < n && rs[i].base == base && Uses(rs, i, base) == 0
  {
    if Uses(rs, n - 1, base) >= 1 {
      i := FirstUse(rs, n - 1, base);
    } else {
      i := n - 1;
    }
  }

  ghost predicate GoodBases(rs: seq<Request>) {
    forall i :: 0 <= i < |rs| ==> EndsInNonDigit(rs[i].base)
  }

  /** The next number for a base name gives a name that no worker has. */
  lemma {:induction false} NextNameIsFresh(rs: seq<Request>, q: Request, number: nat, i: nat)
    requires GoodBases(rs) && EndsInNonDigit(q.base) && i < |rs| && number == Uses(rs, |rs|, q.base) + 1
    ensures NameOf(rs, i) != Numbered(q.base, number)
  {
    var m := Uses(rs, i, rs[i].base) + 1;
    assert rs[i].base != q.base || m != number by {
      UsesGrows(rs, i + 1, |rs|, q.base);
    }
    NumbersDiffer(rs[i].base, m, q.base, number);
  }

  lemma NumbersDiffer(a: string, m: nat, b: string, n: nat)
    requires EndsInNonDigit(a) && EndsInNonDigit(b) && (a != b || m != n)
    ensures Numbered(a, m) != Numbered(b, n)
  {
    if a + Decimal(m) == b + Decimal(n) {
      NamesAreInjective(a, m, b, n);
    }
  }

  lemma {:induction false} NameStays(rs: seq<Request>, q: Request, i: nat)
    requires i < |rs|
    ensures NameOf(rs + [q], i) == NameOf(rs, i)
  {
    UsesPrefix(rs, q, i, rs[i].base);
  }

  lemma {:induction false} NewName(rs: seq<Request>, q: Request, number: nat)
    requires number == Uses(rs, |rs|, q.base) + 1
    ensures NameOf(rs + [q], |rs|) == Numbered(q.base, number)
  {
    UsesPrefix(rs, q, |rs|, q.base);
  }

  lemma {:induction false} NamesStay(rs: seq<Request>, names: seq<string>, q: Request, number: nat, name: string)
    requires Named(rs, names) && number == Uses(rs, |rs|, q.base) + 1 && name == Numbered(q.base, number)
    ensures Named(rs + [q], names + [name])
  {
    var more := names + [name];
    NewName(rs, q, number);
    forall i | 0 <= i < |more| ensures more[i] == NameOf(rs + [q], i) {
      if i < |rs| {
        NameStays(rs, q, i);
      }
    }
  }

  lemma {:induction false} NameIsNew(rs: seq<Request>, names: seq<string>, q: Request, number: nat, name: string)
    requires Named(rs, names) && number == Uses(rs, |rs|, q.base) + 1 && name == Numbered(q.base, number)
    requires GoodBases(rs) && EndsInNonDigit(q.base)
    ensures name !in names
  {
    forall i | 0 <= i < |names| ensures names[i] != name {
      NextNameIsFresh(rs, q, number, i);
    }
  }

  lemma AddWorker(workers: map<string, set<string>>, rs: seq<Request>, names: seq<string>, q: Request, name: string)
    requires OneEach(workers, rs, names) && name !in names
    ensures OneEach(workers[name := q.types], rs + [q], names + [name])
  {
    assert name !in workers;
    assert forall w :: w in names + [name] <==> w in names || w == name;
  }

  /** The worker numbered one of a base name in use is that of its first request. */
  lemma FirstWorker(rs: seq<Request>, names: seq<string>, base: string) returns (i: nat)
    requires Named(rs, names) && Uses(rs, |rs|, base) >= 1
    ensures i < |rs| && rs[i].base == base && names[i] == Numbered(base, 1)
  {
    i := FirstUse(rs, |rs|, base);
  }

  lemma UnparsableIsRejected(strings: seq<string>, i: nat)
    requires i < |strings| && Parse(strings[i]).None?
    ensures !Acceptable(strings)
  {
    assert forall rs :: ParsesTo(strings, rs) ==> Parse(strings[i]) == Some(rs[i]);
  }

  lemma ClashIsRejected(strings: seq<string>, j: nat, i: nat)
    requires j < i < |strings| && Parse(strings[j]).Some? && Parse(strings[i]).Some?
    requires !Compatible(Parse(strings[j]).value, Parse(strings[i]).value)
    ensures !Acceptable(strings)
  {
    forall rs | ParsesTo(strings, rs) ensures !AllCompatible(rs) {
      assert Parse(strings[i]) == Some(rs[i]) && Parse(strings[j]) == Some(rs[j]);
      assert !Compatible(rs[j], rs[i]);
    }
  }

  /** The expanded requests are each well formed and are pairwise compatible. */
  ghost predicate Acceptable(strings: seq<string>) {
    exists rs :: ParsesTo(strings, rs) && AllCompatible(rs)
  }

  /** The types seen so far. */
  ghost predicate Counts(shards: map<string, nat>, rs: seq<Request>) {
    forall t :: t in shards <==> exists i :: 0 <= i < |rs| && t in rs[i].types
  }

  /** The loop over the types of one worker: false when an unshardable type has been seen. */
  method CountTypes(shards: map<string, nat>, types: set<string>) returns (ok: bool, counted: map<string, nat>)
    ensures ok <==> forall t :: t in types && t in shards ==> ShardingAllowed(t)
    ensures ok ==> counted.Keys == shards.Keys + types
  {
    counted := shards;
    var rest := types;
    while rest != {}
      invariant rest <= types && counted.Keys == shards.Keys + (types - rest)
      invariant forall t :: t in types - rest && t in shards ==> ShardingAllowed(t)
    {
      var t :| t in rest;
      if t in counted && !ShardingAllowed(t) {
        return false, counted;
      }
      counted := counted[t := (if t in counted then counted[t] else 0) + 1];
      rest := rest - {t};
    }
    ok := true;
  }

  /** One worker for each of the compatible requests, under its own name. */
  ghost predicate Built(workers: map<string, set<string>>, rs: seq<Request>, names: seq<string>) {
    AllCompatible(rs) && Named(rs, names) && OneEach(workers, rs, names)
  }

  ghost predicate IsResult(workers: map<string, set<string>>, strings: seq<string>, rs: seq<Request>,
                           names: seq<string>)
  {
    ParsesTo(strings, rs) && Built(workers, rs, names)
  }

  /** The counters say what has been requested so far. */
  ghost predicate Counted(bases: map<string, nat>, shards: map<string, nat>, rs: seq<Request>) {
    Counts(shards, rs) && GoodBases(rs)
    && forall b :: Uses(rs, |rs|, b) == if b in bases then bases[b] else 0
  }

  datatype Tables = Tables(bases: map<string, nat>, shards: map<string, nat>, workers: map<string, set<string>>)

  /** The comparison with the first worker of the same base name, which stands for all. */
  method SameTypesAsFirst(workers: map<string, set<string>>, q: Request, number: nat,
                          ghost rs: seq<Request>, ghost names: seq<string>) returns (ok: bool)
    requires Built(workers, rs, names) && number == Uses(rs, |rs|, q.base) + 1
    ensures ok <==> forall j :: 0 <= j < |rs| && rs[j].base == q.base ==> rs[j].types == q.types
  {
    if number > 1 {
      ghost var k := FirstWorker(rs, names, q.base);
      FirstStandsForAll(rs, k);
      assert workers[names[k]] == rs[k].types;
      ok := workers[Numbered(q.base, 1)] == q.types;
    } else {
      UnusedBase(rs, q.base);
      ok := true;
    }
  }

  lemma UnusedBase(rs: seq<Request>, base: string)
    requires Uses(rs, |rs|, base) == 0
    ensures forall j :: 0 <= j < |rs| ==> rs[j].base != base
  {
    forall j | 0 <= j < |rs| ensures rs[j].base != base {
      UsesGrows(rs, j + 1, |rs|, base);
    }
  }

  lemma FirstStandsForAll(rs: seq<Request>, k: nat)
    requires AllCompatible(rs) && k < |rs|
    ensures forall j :: 0 <= j < |rs| && rs[j].base == rs[k].base ==> rs[j].types == rs[k].types
  {
    forall j | 0 <= j < |rs| && rs[j].base == rs[k].base ensures rs[j].types == rs[k].types {
      assert j < k ==> Compatible(rs[j], rs[k]);
      assert k < j ==> Compatible(rs[k], rs[j]);
    }
  }

  lemma ClashExists(shards: map<string, nat>, rs: seq<Request>, q: Request)
    requires Counts(shards, rs)
    ensures (forall j :: 0 <= j < |rs| ==> Compatible(rs[j], q)) <==>
            && (forall t :: t in q.types && t in shards ==> ShardingAllowed(t))
            && (forall j :: 0 <= j < |rs| && rs[j].base == q.base ==> rs[j].types == q.types)
  {
    if forall j :: 0 <= j < |rs| ==> Compatible(rs[j], q) {
      forall t | t in q.types && t in shards ensures ShardingAllowed(t) {
        var j :| 0 <= j < |rs| && t in rs[j].types;
        assert Compatible(rs[j], q);
      }
    }
  }

  /** The body of the loop, once the request has been parsed: the tables with the worker
      added, or None when the request clashes with an earlier one. */
  method Admit(t: Tables, q: Request, ghost rs: seq<Request>, ghost names: seq<string>)
    returns (r: Option<Tables>, name: string)
    requires Built(t.workers, rs, names) && Counted(t.bases, t.shards, rs) && EndsInNonDigit(q.base)
    ensures r.Some? <==> forall j :: 0 <= j < |rs| ==> Compatible(rs[j], q)
    ensures r.Some? ==>
      Built(r.value.workers, rs + [q], names + [name]) && Counted(r.value.bases, r.value.shards, rs + [q])
  {
    ClashExists(t.shards, rs, q);
    var number := (if q.base in t.bases then t.bases[q.base] else 0) + 1;
    name := Numbered(q.base, number);
    var ok, counted := CountTypes(t.shards, q.types);
    if !ok {
      return None, name;
    }
    var same := SameTypesAsFirst(t.workers, q, number, rs, names);
    if !same {
      return None, name;
    }
    AdmitKeeps(t, q, rs, names, counted, number, name);
    r := Some(Tables(t.bases[q.base := number], counted, t.workers[name := q.types]));
  }

  lemma {:induction false} AdmitKeeps(t: Tables, q: Request, rs: seq<Request>, names: seq<string>,
                                      counted: map<string, nat>, number: nat, name: string)
    requires Built(t.workers, rs, names) && Counted(t.bases, t.shards, rs) && EndsInNonDigit(q.base)
    requires forall j :: 0 <= j < |rs| ==> Compatible(rs[j], q)
    requires counted.Keys == t.shards.Keys + q.types
    requires number == (if q.base in t.bases then t.bases[q.base] else 0) + 1 && name == Numbered(q.base, number)
    ensures Built(t.workers[name := q.types], rs + [q], names + [name])
    ensures Counted(t.bases[q.base := number], counted, rs + [q])
  {
    Extend(t.workers, rs, names, q, number, name);
    CountMore(t.bases, t.shards, counted, rs, q, number);
  }

  /** parse_worker_types, after the multipliers. It succeeds exactly on acceptable requests,
      and then the result has one worker for each request, under its own name. */
  method ParseExpanded(strings: seq<string>) returns (r: Option<map<string, set<string>>>)
    ensures r.Some? <==> Acceptable(strings)
    ensures r.Some? ==> exists rs, names :: IsResult(r.value, strings, rs, names)
  {
    var tables := Tables(map[], map[], map[]);
    ghost var rs: seq<Request>, names: seq<string> := [], [];
    for i := 0 to |strings|
      invariant ParsesTo(strings[..i], rs)
      invariant Built(tables.workers, rs, names) && Counted(tables.bases, tables.shards, rs)
    {
      var parsed := Parse(strings[i]);
      if parsed.None? {
        UnparsableIsRejected(strings, i);
        return None;
      }
      BasesEndInNonDigit(strings[i]);
      var next, name := Admit(tables, parsed.value, rs, names);
      if next.None? {
        ClashWithEarlier(strings, rs, i);
        return None;
      }
      MoreParsed(strings, i, rs, parsed.value);
      tables := next.value;
      rs, names := rs + [parsed.value], names + [name];
    }
    assert strings[..|strings|] == strings;
    assert IsResult(tables.workers, strings, rs, names);
    r := Some(tables.workers);
  }

  lemma MoreParsed(strings: seq<string>, i: nat, rs: seq<Request>, q: Request)
    requires i < |strings| && ParsesTo(strings[..i], rs) && Parse(strings[i]) == Some(q)
    ensures ParsesTo(strings[..i + 1], rs + [q])
  {
    assert forall j :: 0 <= j < i ==> strings[..i + 1][j] == strings[..i][j];
  }

  lemma ClashWithEarlier(strings: seq<string>, rs: seq<Request>, i: nat)
    requires i < |strings| && ParsesTo(strings[..i], rs) && Parse(strings[i]).Some?
    requires exists k :: 0 <= k < |rs| && !Compatible(rs[k], Parse(strings[i]).value)
    ensures !Acceptable(strings)
  {
    var k :| 0 <= k < |rs| && !Compatible(rs[k], Parse(strings[i]).value);
    assert Parse(strings[..i][k]) == Some(rs[k]);
    ClashIsRejected(strings, k, i);
  }

  lemma {:induction false} Extend(workers: map<string, set<string>>, rs: seq<Request>, names: seq<string>,
                                  q: Request, number: nat, name: string)
    requires Built(workers, rs, names) && GoodBases(rs) && EndsInNonDigit(q.base)
    requires number == Uses(rs, |rs|, q.base) + 1 && name == Numbered(q.base, number)
    requires forall j :: 0 <= j < |rs| ==> Compatible(rs[j], q)
    ensures Built(workers[name := q.types], rs + [q], names + [name])
  {
    NamesStay(rs, names, q, number, name);
    NameIsNew(rs, names, q, number, name);
    AddWorker(workers, rs, names, q, name);
  }

  lemma {:induction false} CountMore(bases: map<string, nat>, shards: map<string, nat>, counted: map<string, nat>,
                                     rs: seq<Request>, q: Request, number: nat)
    requires Counted(bases, shards, rs) && counted.Keys == shards.Keys + q.types && EndsInNonDigit(q.base)
    requires number == (if q.base in bases then bases[q.base] else 0) + 1
    ensures Counted(bases[q.base := number], counted, rs + [q])
  {
    MoreUses(rs, q);
    MoreTypes(shards, counted, rs, q);
  }

  lemma {:induction false} MoreUses(rs: seq<Request>, q: Request)
    ensures forall b :: Uses(rs + [q], |rs| + 1, b) == Uses(rs, |rs|, b) + if b == q.base then 1 else 0
  {
    forall b ensures Uses(rs + [q], |rs| + 1, b) == Uses(rs, |rs|, b) + if b == q.base then 1 else 0 {
      UsesPrefix(rs, q, |rs|, b);
    }
  }

  lemma MoreTypes(shards: map<string, nat>, counted: map<string, nat>, rs: seq<Request>, q: Request)
    requires Counts(shards, rs) && counted.Keys == shards.Keys + q.types
    ensures Counts(counted, rs + [q])
  {
    var all := rs + [q];
    forall t ensures t in counted <==> exists i :: 0 <= i < |all| && t in all[i].types {
      if t in q.types { assert t in all[|rs|].types; }
      if i :| 0 <= i < |rs| && t in rs[i].types { assert t in all[i].types; }
    }
  }

  /** parse_worker_types */
  method ParseWorkerTypes(requests: seq<string>, parseInt: string -> Option<int>)
    returns (r: Option<map<string, set<string>>>)
    ensures r.Some? <==> Expand(requests, parseInt).Some? && Acceptable(Expand(requests, parseInt).value)
    ensures r.Some? ==> exists rs, names :: IsResult(r.value, Expand(requests, parseInt).value, rs, names)
  {
    var expanded := ApplyMultipliers(requests, parseInt);
    if expanded.None? {
      return None;
    }
    r := ParseExpanded(expanded.value);
  }

  /** In a result, an unshardable type belongs to at most one worker. */
  lemma {:induction false} UnshardableTypesAppearOnce(workers: map<string, set<string>>, rs: seq<Request>,
                                                      names: seq<string>, v: string, w: string, t: string)
    requires Built(workers, rs, names) && v in workers && w in workers && v != w
    requires t in workers[v] && t in workers[w]
    ensures ShardingAllowed(t)
  {
    var i :| 0 <= i < |names| && names[i] == v;
    var j :| 0 <= j < |names| && names[j] == w;
    CompatibleTypes(rs, i, j, t);
  }

  lemma CompatibleTypes(rs: seq<Request>, i: nat, j: nat, t: string)
    requires AllCompatible(rs) && i < |rs| && j < |rs| && i != j && t in rs[i].types && t in rs[j].types
    ensures ShardingAllowed(t)
  {
    assert Compatible(rs[if i < j then i else j], rs[if i < j then j else i]);
  }

  /** A generated base name depends only on the set of types, not on how it was written. */
  lemma GeneratedNameIsDeterministic(s: string, t: string)
    requires '=' !in s && '=' !in t && Parse(s).Some? && Parse(t).Some?
    requires Parse(s).value.types == Parse(t).value.types
    ensures Parse(s).value.base == Parse(t).value.base
  {
    var a, b := SplitStrip(s, '+'), SplitStrip(t, '+');
    SortedSorts(a);
    SortedSorts(b);
    assert forall y :: y in Sorted(a) <==> y in Parse(s).value.types;
    assert forall y :: y in Sorted(b) <==> y in Parse(t).value.types;
    AscendingIsUnique(Sorted(a), Sorted(b));
  }
}
