/** The time-series store of src/store/redis.rs: sorted sets of text members, trimmed on every
    add, queried for the most recent entries. */
module Store {
  import opened Wrappers
  import opened Numeric

  // ----- members

  /** `split(':')`, which always yields at least one field. */
  function Fields(s: string): (r: seq<string>)
    ensures |r| > 0
  {
    if |s| == 0 then [""]
    else
      var rest := Fields(s[1..]);
      if s[0] == ':' then [""] + rest else [[s[0]] + rest[0]] + rest[1..]
  }

  function Digits(n: nat): string {
    if n < 10 then [Digit(n)] else Digits(n / 10) + [Digit(n % 10)]
  }

  function Digit(d: nat): char
    requires d < 10
  {
    '0' + d as char
  }

  function MemberText(ts: nat, text: string, counter: nat): string {
    Digits(ts) + ":" + text + ":" + Digits(counter)
  }

  lemma {:induction false} DigitsHaveNoColon(n: nat)
    ensures |Digits(n)| > 0 && ':' !in Digits(n)
  {
    if n >= 10 {
      DigitsHaveNoColon(n / 10);
    }
  }

  function FromDigits(s: string): int {
    if |s| == 0 then 0 else FromDigits(s[..|s| - 1]) * 10 + (s[|s| - 1] as int - '0' as int)
  }

  lemma {:induction false} DigitsRoundTrip(n: nat)
    ensures FromDigits(Digits(n)) == n
  {
    if n >= 10 {
      DigitsRoundTrip(n / 10);
      assert Digits(n)[..|Digits(n)| - 1] == Digits(n / 10);
    }
  }

  lemma {:induction false} FieldsPrepend(a: string, rest: string)
    requires ':' !in a
    ensures Fields(a + ":" + rest) == [a] + Fields(rest)
  {
    if |a| == 0 {
      assert (a + ":" + rest)[1..] == rest;
    } else {
      FieldsPrepend(a[1..], rest);
      assert (a + ":" + rest)[1..] == a[1..] + ":" + rest;
      assert [a[0]] + a[1..] == a;
    }
  }

  lemma {:induction false} FieldsSingle(a: string)
    requires ':' !in a
    ensures Fields(a) == [a]
  {
    if |a| > 0 {
      FieldsSingle(a[1..]);
      assert [a[0]] + a[1..] == a;
    }
  }

  lemma FieldsOfMember(ts: nat, text: string, counter: nat)
    requires ':' !in text
    ensures Fields(MemberText(ts, text, counter)) == [Digits(ts), text, Digits(counter)]
  {
    hide Fields, Digits;
    DigitsHaveNoColon(ts);
    DigitsHaveNoColon(counter);
    assert MemberText(ts, text, counter) == Digits(ts) + ":" + (text + ":" + Digits(counter));
    FieldsPrepend(Digits(ts), text + ":" + Digits(counter));
    FieldsPrepend(text, Digits(counter));
    FieldsSingle(Digits(counter));
  }

  /** What a member looks like: time, value and counter in decimal, with colons between. */
  lemma MemberExample()
    ensures MemberText(1024, "2.5", 79) == "1024:2.5:79"
  {
    assert Digits(1) == "1" && Digits(7) == "7";
    assert Digits(10) == "10" && Digits(79) == "79";
    assert Digits(102) == "102";
    assert Digits(1024) == "1024";
  }

  /** How the standard library prints and parses floats and rounds integers to them, and
      which reals are floats. */
  datatype Floats = Floats(
    isFloat: real -> bool,
    show: real -> string,
    parse: string -> Option<real>,
    round: nat -> real)

  /** What is printed has no colon, and parsing it gives the float back. */
  ghost predicate Faithful(fl: Floats) {
    && (forall v :: ':' !in fl.show(v))
    && (forall v :: fl.isFloat(v) ==> fl.parse(fl.show(v)) == Some(v))
  }

  /** Such a formatting exists, here for the natural numbers among the floats. */
  lemma FaithfulIsPossible() returns (fl: Floats)
    ensures Faithful(fl) && forall v :: fl.isFloat(v) <==> v == FloorToNat(v) as real
  {
    fl := Floats(v => v == FloorToNat(v) as real, v => Digits(FloorToNat(v)),
                 s => if FromDigits(s) < 0 then None else Some(FromDigits(s) as real), n => n as real);
    forall v ensures ':' !in fl.show(v) {
      DigitsHaveNoColon(FloorToNat(v));
    }
    forall v | fl.isFloat(v) ensures fl.parse(fl.show(v)) == Some(v) {
      DigitsRoundTrip(FloorToNat(v));
    }
  }

  /** `split(':').nth(1)` parsed as a float. */
  function ParseMemberValue(fl: Floats, member: string): Option<real> {
    var f := Fields(member);
    if |f| < 2 then None else fl.parse(f[1])
  }

  /** A member without a colon has no value; otherwise what follows the first colon, up to the
      next one, is parsed, whatever else the member holds. */
  lemma ParseForeign(fl: Floats, a: string, b: string, c: string)
    requires ':' !in a && ':' !in b
    ensures ParseMemberValue(fl, a) == None
    ensures ParseMemberValue(fl, a + ":" + b) == fl.parse(b)
    ensures ParseMemberValue(fl, a + ":" + (b + ":" + c)) == fl.parse(b)
  {
    hide Fields;
    FieldsSingle(a);
    FieldsSingle(b);
    FieldsPrepend(a, b);
    FieldsPrepend(b, c);
    FieldsPrepend(a, b + ":" + c);
  }

  lemma ParseRoundTrip(fl: Floats, ts: nat, val: real, counter: nat)
    requires Faithful(fl) && fl.isFloat(val)
    ensures ParseMemberValue(fl, MemberText(ts, fl.show(val), counter)) == Some(val)
  {
    hide MemberText, Fields;
    FieldsOfMember(ts, fl.show(val), counter);
  }

  // ----- sorted sets

  datatype Entry = Entry(score: real, member: string)

  /** Bytewise comparison of members, a prefix first. */
  predicate LexLeq(a: string, b: string) {
    |a| == 0 || (|b| > 0 && (a[0] < b[0] || (a[0] == b[0] && LexLeq(a[1..], b[1..]))))
  }

  lemma {:induction false} LexTransitive(a: string, b: string, c: string)
    requires LexLeq(a, b) && LexLeq(b, c)
    ensures LexLeq(a, c)
  {
    if |a| > 0 && a[0] == b[0] == c[0] {
      LexTransitive(a[1..], b[1..], c[1..]);
    }
  }

  lemma {:induction false} LexTotal(a: string, b: string)
    ensures LexLeq(a, b) || LexLeq(b, a)
  {
    if |a| > 0 && |b| > 0 && a[0] == b[0] {
      LexTotal(a[1..], b[1..]);
    }
  }

  /** Either a prefix, or smaller where the two first differ. */
  lemma {:induction false} LexLeqMeans(a: string, b: string)
    ensures LexLeq(a, b) <==>
              || a <= b
              || exists k: nat :: k < |a| && k < |b| && a[..k] == b[..k] && a[k] < b[k]
  {
    if |a| == 0 || |b| == 0 {
    } else if a[0] == b[0] {
      var s, t := a[1..], b[1..];
      LexLeqMeans(s, t);
      assert a == [a[0]] + s && b == [b[0]] + t;
      if k: nat :| k < |s| && k < |t| && s[..k] == t[..k] && s[k] < t[k] {
        assert a[..k + 1] == [a[0]] + s[..k] && b[..k + 1] == [b[0]] + t[..k] && a[k + 1] < b[k + 1];
      }
      if k: nat :| k < |a| && k < |b| && a[..k] == b[..k] && a[k] < b[k] {
        assert s[..k - 1] == a[..k][1..] && t[..k - 1] == b[..k][1..] && s[k - 1] < t[k - 1];
      }
    } else if a[0] < b[0] {
      assert a[..0] == b[..0];
    } else {
      forall k: nat | 0 < k < |a| && k < |b| ensures a[..k] != b[..k] {
        assert a[..k][0] != b[..k][0];
      }
    }
  }

  predicate Leq(a: Entry, b: Entry) {
    a.score < b.score || (a.score == b.score && LexLeq(a.member, b.member))
  }

  ghost predicate Ordered(s: seq<Entry>) {
    forall i, j :: 0 <= i < j < |s| ==> Leq(s[i], s[j])
  }

  function InsertEntry(e: Entry, s: seq<Entry>): seq<Entry> {
    if |s| == 0 || Leq(e, s[0]) then [e] + s else [s[0]] + InsertEntry(e, s[1..])
  }

  function Without(member: string, s: seq<Entry>): seq<Entry> {
    if |s| == 0 then []
    else (if s[0].member == member then [] else [s[0]]) + Without(member, s[1..])
  }

  /** ZADD: a member occurs once; adding it again moves it. */
  function Zadd(s: seq<Entry>, e: Entry): seq<Entry> {
    InsertEntry(e, Without(e.member, s))
  }

  function AtLeast(bound: real, s: seq<Entry>): seq<Entry> {
    if |s| == 0 then []
    else (if s[0].score >= bound then [s[0]] else []) + AtLeast(bound, s[1..])
  }

  /** ZREMRANGEBYSCORE -inf cutoff: both ends inclusive. */
  function RemoveUpTo(cutoff: real, s: seq<Entry>): seq<Entry> {
    if |s| == 0 then []
    else (if s[0].score <= cutoff then [] else [s[0]]) + RemoveUpTo(cutoff, s[1..])
  }

  function Reverse(s: seq<Entry>): (r: seq<Entry>)
    ensures |r| == |s|
  {
    if |s| == 0 then [] else Reverse(s[1..]) + [s[0]]
  }

  lemma {:induction false} ReverseAt(s: seq<Entry>, i: nat)
    requires i < |s|
    ensures Reverse(s)[i] == s[|s| - 1 - i]
  {
    if i < |s| - 1 {
      ReverseAt(s[1..], i);
    }
  }

  /** ZREVRANGEBYSCORE +inf since LIMIT 0 limit; no LIMIT clause when the limit is zero. */
  function RevRange(s: seq<Entry>, since: real, limit: nat): seq<Entry> {
    var all := Reverse(AtLeast(since, s));
    if 0 < limit < |all| then all[..limit] else all
  }

  /** The last `limit` elements; all of them when the limit is zero. */
  function LastN<T>(s: seq<T>, limit: nat): seq<T> {
    if limit == 0 then s else LastOnes(s, limit)
  }

  lemma ReverseTwiceAt(s: seq<Entry>, limit: nat, i: nat)
    requires i < limit <= |s|
    ensures Reverse(Reverse(s)[..limit])[i] == s[|s| - limit + i]
  {
    hide Reverse;
    var r := Reverse(s);
    ReverseAt(r[..limit], i);
    assert r[..limit][limit - 1 - i] == r[limit - 1 - i];
    ReverseAt(s, limit - 1 - i);
  }

  lemma ReverseOfPrefix(s: seq<Entry>, limit: nat)
    requires limit <= |s|
    ensures Reverse(Reverse(s)[..limit]) == s[|s| - limit..]
  {
    hide Reverse;
    var back, suffix := Reverse(Reverse(s)[..limit]), s[|s| - limit..];
    forall i | 0 <= i < limit ensures back[i] == suffix[i] {
      ReverseTwiceAt(s, limit, i);
    }
  }

  /** Reversing what ZREVRANGEBYSCORE returns gives the newest entries, oldest first. */
  lemma RevRangeIsLast(s: seq<Entry>, since: real, limit: nat)
    ensures Reverse(RevRange(s, since, limit)) == LastN(AtLeast(since, s), limit)
  {
    hide Reverse, AtLeast;
    var t := AtLeast(since, s);
    var n := if 0 < limit < |t| then limit else |t|;
    ReverseOfPrefix(t, n);
    assert Reverse(t)[..n] == RevRange(s, since, limit);
  }

  function Monus(a: nat, b: nat): nat {
    if a < b then 0 else a - b
  }

  function SeriesAdd(fl: Floats, s: seq<Entry>, ts: nat, val: real, window: nat, counter: nat): seq<Entry> {
    var added := Zadd(s, Entry(fl.round(ts), MemberText(ts, fl.show(val), counter)));
    if window > 0 then RemoveUpTo(fl.round(Monus(ts, window)), added) else added
  }

  function Decode(fl: Floats, s: seq<Entry>): seq<(nat, real)> {
    if |s| == 0 then []
    else
      var last := s[|s| - 1];
      var val := ParseMemberValue(fl, last.member);
      Decode(fl, s[..|s| - 1]) + if val.Some? then [(FloorToNat(last.score), val.value)] else []
  }

  function SeriesRecent(fl: Floats, s: seq<Entry>, since: nat, limit: nat): seq<(nat, real)> {
    Decode(fl, LastN(AtLeast(fl.round(since), s), limit))
  }

  const U64_SPACE := 0x1_0000_0000_0000_0000

  /** The counters grow along the adds and do not exceed n. */
  ghost predicate CountedUpTo(adds: seq<Add>, n: nat) {
    && (forall i, j :: 0 <= i < j < |adds| ==> adds[i].counter < adds[j].counter)
    && (forall i :: 0 <= i < |adds| ==> adds[i].counter <= n)
  }

  /** No add so far has trimmed what a query from `since` on asks for. */
  ghost predicate Untrimmed(fl: Floats, adds: seq<Add>, since: nat) {
    forall i :: 0 <= i < |adds| ==> !Trims(fl, adds[i], fl.round(since))
  }

  function SeriesOf(sets: map<string, seq<Entry>>, key: string): seq<Entry> {
    if key in sets then sets[key] else []
  }

  ghost function AddsOf(history: map<string, seq<Add>>, key: string): seq<Add> {
    if key in history then history[key] else []
  }

  /** Every series is what the adds made to its key leave, and the counter has been taken from for
      all of them: before 2^64 adds no value of it twice. */
  ghost predicate Consistent(fl: Floats, sets: map<string, seq<Entry>>, history: map<string, seq<Add>>,
      counter: nat, taken: nat)
  {
    && counter == (taken + 1) % 0x1_0000_0000_0000_0000
    && sets.Keys == history.Keys
    && (forall key :: key in sets ==> sets[key] == Trimmed(fl, history[key]))
    && (taken < 0x1_0000_0000_0000_0000 ==> forall key :: key in history ==> CountedUpTo(history[key], taken))
  }

  lemma AddKeepsConsistent(fl: Floats, sets: map<string, seq<Entry>>, history: map<string, seq<Add>>,
      counter: nat, taken: nat, key: string, a: Add)
    requires Consistent(fl, sets, history, counter, taken) && a.counter == counter
    ensures Consistent(fl, sets[key := SeriesAdd(fl, SeriesOf(sets, key), a.ts, a.val, a.window, counter)],
                       history[key := AddsOf(history, key) + [a]],
                       (counter + 1) % 0x1_0000_0000_0000_0000, taken + 1)
  {
    hide SeriesAdd, Trimmed, CountedUpTo;
    var adds := AddsOf(history, key);
    TrimmedNext(fl, adds, a);
    assert SeriesOf(sets, key) == Trimmed(fl, adds);
    if taken + 1 < 0x1_0000_0000_0000_0000 {
      NoneCounted(taken);
      CountedNext(adds, taken, a);
      forall k | k in history ensures CountedUpTo(history[k], taken + 1) {
        CountedNext(history[k], taken, a);
      }
    }
  }

  lemma NoneCounted(n: nat)
    ensures CountedUpTo([], n)
  {
  }

  lemma CountedNext(adds: seq<Add>, n: nat, a: Add)
    requires CountedUpTo(adds, n) && a.counter == n + 1
    ensures CountedUpTo(adds + [a], n + 1) && CountedUpTo(adds, n + 1)
  {
  }

  lemma SeriesOfConsistent(fl: Floats, sets: map<string, seq<Entry>>, history: map<string, seq<Add>>,
      counter: nat, taken: nat, key: string)
    requires Consistent(fl, sets, history, counter, taken)
    ensures SeriesOf(sets, key) == Trimmed(fl, AddsOf(history, key))
    ensures taken < 0x1_0000_0000_0000_0000 ==> CountersDistinct(AddsOf(history, key))
  {
    hide SeriesAdd;
    assert taken < 0x1_0000_0000_0000_0000 ==> CountedUpTo(AddsOf(history, key), taken);
  }

  class RedisStore {
    const fl: Floats
    var sets: map<string, seq<Entry>>
    var counter: nat
    ghost var history: map<string, seq<Add>>
    ghost var taken: nat

    ghost predicate Valid()
      reads this
    {
      Consistent(fl, sets, history, counter, taken)
    }

    /** The adds made to one key, in order. */
    ghost function History(key: string): seq<Add>
      reads this
    {
      AddsOf(history, key)
    }

    function Series(key: string): seq<Entry>
      reads this
    {
      SeriesOf(sets, key)
    }

    constructor (fl: Floats)
      ensures Valid() && this.fl == fl && sets == map[] && counter == 1 && history == map[] && taken == 0
    {
      this.fl := fl;
      sets, counter := map[], 1;
      history, taken := map[], 0;
    }

    method TsAdd(key: string, ts: nat, val: real, window: nat)
      requires Valid()
      modifies this
      ensures Valid() && taken == old(taken) + 1
      ensures history == old(history)[key := old(History(key)) + [Add(ts, val, window, old(counter))]]
      ensures sets == old(sets)[key := SeriesAdd(fl, old(Series(key)), ts, val, window, old(counter))]
      ensures counter == (old(counter) + 1) % 0x1_0000_0000_0000_0000
    {
      hide SeriesAdd, Consistent, Zadd, RemoveUpTo, MemberText;
      SeriesAddIs(fl, Series(key), ts, val, window, counter);
      AddKeepsConsistent(fl, sets, history, counter, taken, key, Add(ts, val, window, counter));
      history := history[key := History(key) + [Add(ts, val, window, counter)]];
      taken := taken + 1;
      var member := MemberText(ts, fl.show(val), counter);
      counter := (counter + 1) % U64_SPACE;
      sets := sets[key := Zadd(Series(key), Entry(fl.round(ts), member))];
      if window > 0 {
        var cutoff := Monus(ts, window);
        sets := sets[key := RemoveUpTo(fl.round(cutoff), Series(key))];
      }
      assert sets == old(sets)[key := Series(key)];
    }

    /** What is read back; without a limit, and while nothing asked for has been trimmed, exactly
        the adds made to the key whose scores reach the bound, in order of time. */
    method TsRecent(key: string, since: nat, limit: nat) returns (r: seq<(nat, real)>)
      requires Valid()
      ensures r == SeriesRecent(fl, Trimmed(fl, History(key)), since, limit)
      ensures limit == 0 && taken < 0x1_0000_0000_0000_0000
              && Faithful(fl) && AllFloats(fl, History(key)) && Untrimmed(fl, History(key), since) ==>
                multiset(r) == multiset(Kept(fl, History(key), Recent(fl, since))) && InTimeOrder(r)
    {
      hide Reverse, RevRange, AtLeast, LastN, ParseMemberValue, Consistent, Trimmed;
      SeriesOfConsistent(fl, sets, history, counter, taken, key);
      var entries := Reverse(RevRange(Series(key), fl.round(since), limit));
      RevRangeIsLast(Series(key), fl.round(since), limit);
      r := [];
      for i := 0 to |entries|
        invariant r == Decode(fl, entries[..i])
      {
        assert entries[..i + 1][..i] == entries[..i];
        var val := ParseMemberValue(fl, entries[i].member);
        if val.Some? {
          r := r + [(FloorToNat(entries[i].score), val.value)];
        }
      }
      assert entries[..|entries|] == entries;
      hide Decode, Trimmed, Faithful, AllFloats, Kept, InTimeOrder, SeriesRecent;
      if limit == 0 && taken < 0x1_0000_0000_0000_0000
         && Faithful(fl) && AllFloats(fl, History(key)) && Untrimmed(fl, History(key), since) {
        QueryReturnsRecentAdds(fl, History(key), since);
      }
    }
  }

  lemma SeriesAddIs(fl: Floats, s: seq<Entry>, ts: nat, val: real, window: nat, counter: nat)
    ensures SeriesAdd(fl, s, ts, val, window, counter) ==
            var added := Zadd(s, Entry(fl.round(ts), MemberText(ts, fl.show(val), counter)));
            if window > 0 then RemoveUpTo(fl.round(Monus(ts, window)), added) else added
  {
  }

  lemma TrimmedNext(fl: Floats, adds: seq<Add>, a: Add)
    ensures Trimmed(fl, adds + [a]) == SeriesAdd(fl, Trimmed(fl, adds), a.ts, a.val, a.window, a.counter)
    ensures Trimmed(fl, []) == []
  {
    hide SeriesAdd;
    assert (adds + [a])[..|adds|] == adds;
  }

  // ----- runs of adds to one key

  datatype Add = Add(ts: nat, val: real, window: nat, counter: nat)

  function EntryOf(fl: Floats, a: Add): Entry {
    Entry(fl.round(a.ts), MemberText(a.ts, fl.show(a.val), a.counter))
  }

  /** The stored series: every add trims. */
  function Trimmed(fl: Floats, adds: seq<Add>): seq<Entry> {
    if |adds| == 0 then []
    else
      var a := adds[|adds| - 1];
      SeriesAdd(fl, Trimmed(fl, adds[..|adds| - 1]), a.ts, a.val, a.window, a.counter)
  }

  /** The same adds without trimming. */
  function Log(fl: Floats, adds: seq<Add>): seq<Entry> {
    if |adds| == 0 then []
    else Zadd(Log(fl, adds[..|adds| - 1]), EntryOf(fl, adds[|adds| - 1]))
  }

  lemma LeqTransitive(a: Entry, b: Entry, c: Entry)
    requires Leq(a, b) && Leq(b, c)
    ensures Leq(a, c)
  {
    hide LexLeq;
    if a.score == b.score == c.score {
      LexTransitive(a.member, b.member, c.member);
    }
  }

  lemma {:induction false} InsertMembership(e: Entry, s: seq<Entry>)
    ensures multiset(InsertEntry(e, s)) == multiset{e} + multiset(s)
  {
    if |s| == 0 || Leq(e, s[0]) {
    } else {
      InsertMembership(e, s[1..]);
      assert s == [s[0]] + s[1..];
    }
  }

  lemma {:induction false} InsertOrdered(e: Entry, s: seq<Entry>)
    requires Ordered(s)
    ensures Ordered(InsertEntry(e, s))
  {
    hide LexLeq;
    if |s| == 0 {
    } else if Leq(e, s[0]) {
      forall j | 0 <= j < |s| ensures Leq(e, s[j]) {
        if j > 0 { LeqTransitive(e, s[0], s[j]); }
      }
    } else {
      LexTotal(e.member, s[0].member);
      assert Leq(s[0], e);
      var r := InsertEntry(e, s[1..]);
      InsertOrdered(e, s[1..]);
      InsertMembership(e, s[1..]);
      forall j | 0 <= j < |r| ensures Leq(s[0], r[j]) {
        assert r[j] in multiset(r);
      }
    }
  }

  lemma {:induction false} WithoutContents(member: string, s: seq<Entry>)
    ensures forall e :: e in Without(member, s) <==> e in s && e.member != member
    ensures member !in Members(s) ==> Without(member, s) == s
  {
    if |s| > 0 {
      WithoutContents(member, s[1..]);
      assert s == [s[0]] + s[1..];
      if member !in Members(s) {
        assert s[0].member in Members(s);
        assert forall i :: 0 <= i < |s[1..]| ==> s[1..][i].member == s[i + 1].member;
      }
    }
  }

  ghost function Members(s: seq<Entry>): set<string> {
    set i | 0 <= i < |s| :: s[i].member
  }

  lemma {:induction false} WithoutOrdered(member: string, s: seq<Entry>)
    requires Ordered(s)
    ensures Ordered(Without(member, s))
  {
    if |s| > 0 {
      WithoutOrdered(member, s[1..]);
      WithoutContents(member, s[1..]);
      var r := Without(member, s[1..]);
      forall j | 0 <= j < |r| ensures Leq(s[0], r[j]) {
        assert r[j] in s[1..];
      }
    }
  }

  lemma {:induction false} RemoveContents(cutoff: real, s: seq<Entry>)
    ensures forall e :: e in RemoveUpTo(cutoff, s) <==> e in s && e.score > cutoff
  {
    if |s| > 0 {
      RemoveContents(cutoff, s[1..]);
      assert s == [s[0]] + s[1..];
    }
  }

  lemma {:induction false} RemoveOrdered(cutoff: real, s: seq<Entry>)
    requires Ordered(s)
    ensures Ordered(RemoveUpTo(cutoff, s))
  {
    if |s| > 0 {
      RemoveOrdered(cutoff, s[1..]);
      RemoveContents(cutoff, s[1..]);
      var r := RemoveUpTo(cutoff, s[1..]);
      forall j | 0 <= j < |r| ensures Leq(s[0], r[j]) {
        assert r[j] in s[1..];
      }
    }
  }

  // ----- the query sees only what lies above its bound

  lemma {:induction false} AtLeastContents(bound: real, s: seq<Entry>)
    ensures forall e :: e in AtLeast(bound, s) <==> e in s && e.score >= bound
  {
    if |s| > 0 {
      AtLeastContents(bound, s[1..]);
      assert s == [s[0]] + s[1..];
    }
  }

  lemma {:induction false} AtLeastInsert(bound: real, e: Entry, s: seq<Entry>)
    requires Ordered(s)
    ensures AtLeast(bound, InsertEntry(e, s)) ==
            if e.score >= bound then InsertEntry(e, AtLeast(bound, s)) else AtLeast(bound, s)
  {
    hide LexLeq;
    if |s| == 0 || Leq(e, s[0]) {
      assert ([e] + s)[1..] == s;
      var r := AtLeast(bound, s);
      if |r| > 0 {
        AtLeastContents(bound, s);
        assert r[0] in s;
        var j :| 0 <= j < |s| && s[j] == r[0];
        if j > 0 { LeqTransitive(e, s[0], s[j]); }
      }
    } else {
      AtLeastInsert(bound, e, s[1..]);
      var r := InsertEntry(e, s[1..]);
      assert ([s[0]] + r)[1..] == r;
      if s[0].score >= bound {
        assert AtLeast(bound, s) == [s[0]] + AtLeast(bound, s[1..]);
        assert AtLeast(bound, s)[1..] == AtLeast(bound, s[1..]);
      } else {
        assert AtLeast(bound, s) == AtLeast(bound, s[1..]);
        assert AtLeast(bound, InsertEntry(e, s)) == AtLeast(bound, r);
      }
    }
  }

  lemma {:induction false} AtLeastWithout(bound: real, member: string, s: seq<Entry>)
    ensures AtLeast(bound, Without(member, s)) == Without(member, AtLeast(bound, s))
  {
    if |s| > 0 {
      AtLeastWithout(bound, member, s[1..]);
      var r := Without(member, s[1..]);
      assert ([s[0]] + r)[1..] == r;
      var t := AtLeast(bound, s[1..]);
      assert ([s[0]] + t)[1..] == t;
      assert [] + r == r && [] + t == t;
    }
  }

  lemma {:induction false} AtLeastRemove(bound: real, cutoff: real, s: seq<Entry>)
    requires forall e :: e in s ==> !(bound <= e.score <= cutoff)
    ensures AtLeast(bound, RemoveUpTo(cutoff, s)) == AtLeast(bound, s)
  {
    if |s| > 0 {
      assert s == [s[0]] + s[1..];
      AtLeastRemove(bound, cutoff, s[1..]);
      var r := RemoveUpTo(cutoff, s[1..]);
      if s[0].score <= cutoff {
        assert RemoveUpTo(cutoff, s) == r;
        assert AtLeast(bound, s) == AtLeast(bound, s[1..]);
      } else {
        assert RemoveUpTo(cutoff, s) == [s[0]] + r;
        assert ([s[0]] + r)[1..] == r;
      }
    }
  }

  lemma AtLeastZadd(bound: real, s: seq<Entry>, t: seq<Entry>, e: Entry)
    requires Ordered(s) && Ordered(t) && AtLeast(bound, s) == AtLeast(bound, t)
    ensures Ordered(Zadd(s, e)) && Ordered(Zadd(t, e))
    ensures AtLeast(bound, Zadd(s, e)) == AtLeast(bound, Zadd(t, e))
  {
    hide AtLeast, InsertEntry, Without, Ordered;
    WithoutOrdered(e.member, s);
    WithoutOrdered(e.member, t);
    InsertOrdered(e, Without(e.member, s));
    InsertOrdered(e, Without(e.member, t));
    AtLeastInsert(bound, e, Without(e.member, s));
    AtLeastInsert(bound, e, Without(e.member, t));
    AtLeastWithout(bound, e.member, s);
    AtLeastWithout(bound, e.member, t);
  }

  predicate Trims(fl: Floats, a: Add, score: real) {
    a.window > 0 && score <= fl.round(Monus(a.ts, a.window))
  }

  /** The i-th add is still stored at the end: neither its own trim nor a later one removed it. */
  ghost predicate Survives(fl: Floats, adds: seq<Add>, i: nat)
    requires i < |adds|
  {
    forall j :: i <= j < |adds| ==> !Trims(fl, adds[j], EntryOf(fl, adds[i]).score)
  }

  /** Some add within the query's bound has been trimmed away. */
  ghost predicate Lost(fl: Floats, adds: seq<Add>, bound: real) {
    exists i :: 0 <= i < |adds| && EntryOf(fl, adds[i]).score >= bound && !Survives(fl, adds, i)
  }

  ghost predicate WasAdded(fl: Floats, adds: seq<Add>, e: Entry) {
    exists i :: 0 <= i < |adds| && e == EntryOf(fl, adds[i])
  }

  lemma ZaddContents(s: seq<Entry>, e: Entry)
    ensures forall x :: x in Zadd(s, e) <==> x == e || (x in s && x.member != e.member)
  {
    WithoutContents(e.member, s);
    InsertMembership(e, Without(e.member, s));
    forall x ensures x in Zadd(s, e) <==> x == e || (x in s && x.member != e.member) {
      assert x in Zadd(s, e) <==> x in multiset(Zadd(s, e));
    }
  }

  lemma WasAddedLater(fl: Floats, adds: seq<Add>, e: Entry)
    requires |adds| > 0 && WasAdded(fl, adds[..|adds| - 1], e)
    ensures WasAdded(fl, adds, e)
  {
  }

  lemma LastAdded(fl: Floats, adds: seq<Add>, e: Entry)
    requires |adds| > 0
    ensures WasAdded(fl, adds, e) <==> WasAdded(fl, adds[..|adds| - 1], e) || e == EntryOf(fl, adds[|adds| - 1])
  {
  }

  lemma {:induction false} StoredWasAdded(fl: Floats, adds: seq<Add>, e: Entry)
    requires e in Trimmed(fl, adds)
    ensures WasAdded(fl, adds, e)
  {
    hide EntryOf, Zadd, RemoveUpTo;
    var before, a := adds[..|adds| - 1], adds[|adds| - 1];
    EntryOfIs(fl, a);
    ZaddContents(Trimmed(fl, before), EntryOf(fl, a));
    if a.window > 0 {
      RemoveContents(fl.round(Monus(a.ts, a.window)), Zadd(Trimmed(fl, before), EntryOf(fl, a)));
    }
    if e in Trimmed(fl, before) {
      StoredWasAdded(fl, before, e);
      WasAddedLater(fl, adds, e);
    } else {
      assert e == EntryOf(fl, adds[|adds| - 1]);
    }
  }

  lemma EntryOfIs(fl: Floats, a: Add)
    ensures EntryOf(fl, a) == Entry(fl.round(a.ts), MemberText(a.ts, fl.show(a.val), a.counter))
  {
  }

  lemma OrderedEmpty()
    ensures Ordered([])
  {
  }

  lemma NothingLostBefore(fl: Floats, adds: seq<Add>, bound: real)
    requires |adds| > 0 && !Lost(fl, adds, bound)
    ensures !Lost(fl, adds[..|adds| - 1], bound)
  {
  }

  /** What the last trim removes lies below the bound, unless something is lost. */
  lemma LastTrimBelow(fl: Floats, adds: seq<Add>, bound: real, e: Entry)
    requires |adds| > 0 && !Lost(fl, adds, bound) && WasAdded(fl, adds, e) && e.score >= bound
    ensures !Trims(fl, adds[|adds| - 1], e.score)
  {
  }

  lemma TrimStep(fl: Floats, adds: seq<Add>, bound: real, added: seq<Entry>, a: Add)
    requires |adds| > 0 && a == adds[|adds| - 1] && !Lost(fl, adds, bound)
    requires forall e :: e in added ==> WasAdded(fl, adds, e)
    ensures a.window > 0 ==> AtLeast(bound, RemoveUpTo(fl.round(Monus(a.ts, a.window)), added)) == AtLeast(bound, added)
  {
    hide Lost, WasAdded, AtLeast, RemoveUpTo;
    if a.window > 0 {
      forall e | e in added ensures !(bound <= e.score <= fl.round(Monus(a.ts, a.window))) {
        if e.score >= bound {
          LastTrimBelow(fl, adds, bound, e);
        }
      }
      AtLeastRemove(bound, fl.round(Monus(a.ts, a.window)), added);
    }
  }

  lemma AddedEntries(fl: Floats, adds: seq<Add>)
    requires |adds| > 0
    ensures forall x :: x in Zadd(Trimmed(fl, adds[..|adds| - 1]), EntryOf(fl, adds[|adds| - 1])) ==>
        WasAdded(fl, adds, x)
  {
    hide EntryOf, Zadd, Trimmed;
    var before, e := adds[..|adds| - 1], EntryOf(fl, adds[|adds| - 1]);
    ZaddContents(Trimmed(fl, before), e);
    forall x | x in Zadd(Trimmed(fl, before), e) ensures WasAdded(fl, adds, x) {
      if x != e {
        StoredWasAdded(fl, before, x);
        WasAddedLater(fl, adds, x);
      }
    }
  }

  lemma {:induction false} SameAbove(fl: Floats, adds: seq<Add>, bound: real)
    requires !Lost(fl, adds, bound)
    ensures Ordered(Trimmed(fl, adds)) && Ordered(Log(fl, adds))
    ensures AtLeast(bound, Trimmed(fl, adds)) == AtLeast(bound, Log(fl, adds))
  {
    hide AtLeast, Zadd, Ordered, RemoveUpTo, EntryOf, Lost;
    if |adds| == 0 {
      OrderedEmpty();
    } else {
      var before, a := adds[..|adds| - 1], adds[|adds| - 1];
      NothingLostBefore(fl, adds, bound);
      SameAbove(fl, before, bound);
      EntryOfIs(fl, a);
      AtLeastZadd(bound, Trimmed(fl, before), Log(fl, before), EntryOf(fl, a));
      AddedEntries(fl, adds);
      var added := Zadd(Trimmed(fl, before), EntryOf(fl, a));
      TrimStep(fl, adds, bound, added, a);
      if a.window > 0 {
        RemoveOrdered(fl.round(Monus(a.ts, a.window)), added);
      }
    }
  }

  /** The entries a query returns, before decoding. */
  function QueryEntries(fl: Floats, s: seq<Entry>, since: nat, limit: nat): seq<Entry> {
    LastN(AtLeast(fl.round(since), s), limit)
  }

  /** Store refinement: for every run of adds, with any windows, the query on the trimmed
      series equals the query on the full log when its bound lies strictly above every
      cutoff that was used. */
  lemma TrimmingIsInvisible(fl: Floats, adds: seq<Add>, since: nat, limit: nat)
    requires forall i :: 0 <= i < |adds| ==> !Trims(fl, adds[i], fl.round(since))
    ensures SeriesRecent(fl, Trimmed(fl, adds), since, limit) == SeriesRecent(fl, Log(fl, adds), since, limit)
  {
    hide EntryOf;
    var bound := fl.round(since);
    forall i | 0 <= i < |adds| && EntryOf(fl, adds[i]).score >= bound ensures Survives(fl, adds, i) {
      forall j | i <= j < |adds| ensures !Trims(fl, adds[j], EntryOf(fl, adds[i]).score) {
        assert !Trims(fl, adds[j], bound);
      }
    }
    SameAbove(fl, adds, bound);
  }

  // ----- the exact condition

  ghost predicate CountersDistinct(adds: seq<Add>) {
    forall i, j :: 0 <= i < j < |adds| ==> adds[i].counter != adds[j].counter
  }

  lemma MemberDeterminesCounter(fl: Floats, a: Add, b: Add)
    requires Faithful(fl) && EntryOf(fl, a).member == EntryOf(fl, b).member
    ensures a.counter == b.counter
  {
    hide MemberText, Fields, Digits;
    FieldsOfMember(a.ts, fl.show(a.val), a.counter);
    FieldsOfMember(b.ts, fl.show(b.val), b.counter);
    assert Digits(a.counter) == Digits(b.counter);
    DigitsRoundTrip(a.counter);
    DigitsRoundTrip(b.counter);
  }

  /** A new counter value means a member that no earlier entry has. */
  lemma NewMember(fl: Floats, adds: seq<Add>, e: Entry)
    requires Faithful(fl) && CountersDistinct(adds) && |adds| > 0
    requires WasAdded(fl, adds[..|adds| - 1], e)
    ensures e.member != EntryOf(fl, adds[|adds| - 1]).member
  {
    hide EntryOf;
    var i :| 0 <= i < |adds| - 1 && e == EntryOf(fl, adds[..|adds| - 1][i]);
    if e.member == EntryOf(fl, adds[|adds| - 1]).member {
      MemberDeterminesCounter(fl, adds[i], adds[|adds| - 1]);
    }
  }

  /** With distinct counters no add displaces another: the log holds every entry. */
  lemma {:induction false} LogKeepsEverything(fl: Floats, adds: seq<Add>, e: Entry)
    requires Faithful(fl) && CountersDistinct(adds)
    ensures e in Log(fl, adds) <==> WasAdded(fl, adds, e)
  {
    hide EntryOf, Zadd;
    if |adds| > 0 {
      var before, last := adds[..|adds| - 1], EntryOf(fl, adds[|adds| - 1]);
      LogKeepsEverything(fl, before, e);
      ZaddContents(Log(fl, before), last);
      if WasAdded(fl, before, e) {
        NewMember(fl, adds, e);
        WasAddedLater(fl, adds, e);
      } else {
        LastAdded(fl, adds, e);
      }
    }
  }

  lemma StepTrims(fl: Floats, adds: seq<Add>, e: Entry)
    requires |adds| > 0 && e in Trimmed(fl, adds)
    ensures !Trims(fl, adds[|adds| - 1], e.score)
    ensures e in Trimmed(fl, adds[..|adds| - 1]) || e == EntryOf(fl, adds[|adds| - 1])
  {
    hide EntryOf, Zadd, RemoveUpTo;
    var before, a := adds[..|adds| - 1], adds[|adds| - 1];
    EntryOfIs(fl, a);
    ZaddContents(Trimmed(fl, before), EntryOf(fl, a));
    RemoveContents(fl.round(Monus(a.ts, a.window)), Zadd(Trimmed(fl, before), EntryOf(fl, a)));
  }

  lemma {:induction false} StoredSurvives(fl: Floats, adds: seq<Add>, i: nat)
    requires Faithful(fl) && CountersDistinct(adds) && i < |adds| && EntryOf(fl, adds[i]) in Trimmed(fl, adds)
    ensures Survives(fl, adds, i)
  {
    hide EntryOf, Trimmed, Trims;
    var e := EntryOf(fl, adds[i]);
    StepTrims(fl, adds, e);
    if i < |adds| - 1 {
      var before := adds[..|adds| - 1];
      assert before[i] == adds[i];
      if e == EntryOf(fl, adds[|adds| - 1]) {
        MemberDeterminesCounter(fl, adds[i], adds[|adds| - 1]);
      }
      StoredSurvives(fl, before, i);
      forall j | i <= j < |adds| ensures !Trims(fl, adds[j], e.score) {
        if j < |before| { assert before[j] == adds[j]; }
      }
    }
  }

  ghost predicate QueriesAgree(fl: Floats, adds: seq<Add>, since: nat) {
    forall limit :: QueryEntries(fl, Trimmed(fl, adds), since, limit) == QueryEntries(fl, Log(fl, adds), since, limit)
  }

  /** Queries agree with the full log exactly when no add within their bound was trimmed. */
  lemma TrimmingVisibleExactlyWhenLost(fl: Floats, adds: seq<Add>, since: nat)
    requires Faithful(fl) && CountersDistinct(adds)
    ensures QueriesAgree(fl, adds, since) <==> !Lost(fl, adds, fl.round(since))
  {
    hide EntryOf, Trimmed, Log, AtLeast, Survives, CountersDistinct;
    var bound := fl.round(since);
    if Lost(fl, adds, bound) {
      var i :| 0 <= i < |adds| && EntryOf(fl, adds[i]).score >= bound && !Survives(fl, adds, i);
      var e := EntryOf(fl, adds[i]);
      LogKeepsEverything(fl, adds, e);
      AtLeastContents(bound, Log(fl, adds));
      AtLeastContents(bound, Trimmed(fl, adds));
      if e in Trimmed(fl, adds) {
        StoredSurvives(fl, adds, i);
      }
      assert QueryEntries(fl, Trimmed(fl, adds), since, 0) != QueryEntries(fl, Log(fl, adds), since, 0);
    } else {
      SameAbove(fl, adds, bound);
    }
  }

  /** A bound equal to a cutoff is where it goes wrong: trimming and querying are both
      inclusive, so an entry exactly one window old is gone while the query asks for it. */
  lemma EqualityLosesAnEntry(fl: Floats)
    requires Faithful(fl)
    ensures var adds := [Add(10, 1.0, 5, 1), Add(15, 2.0, 5, 2)];
            CountersDistinct(adds) && !QueriesAgree(fl, adds, 10)
  {
    var adds := [Add(10, 1.0, 5, 1), Add(15, 2.0, 5, 2)];
    assert Trims(fl, adds[1], fl.round(10));
    assert EntryOf(fl, adds[0]).score == fl.round(10);
    assert !Survives(fl, adds, 0);
    TrimmingVisibleExactlyWhenLost(fl, adds, 10);
  }

  // ----- what a query returns was added

  /** The pair is what the entry reads back as. */
  predicate ReadsAs(fl: Floats, e: Entry, r: (nat, real)) {
    ParseMemberValue(fl, e.member) == Some(r.1) && r.0 == FloorToNat(e.score)
  }

  lemma {:induction false} DecodeValues(fl: Floats, s: seq<Entry>, k: nat)
    requires k < |Decode(fl, s)|
    ensures exists i :: 0 <= i < |s| && ReadsAs(fl, s[i], Decode(fl, s)[k])
  {
    var init := s[..|s| - 1];
    if k < |Decode(fl, init)| {
      DecodeValues(fl, init, k);
      var i :| 0 <= i < |init| && ReadsAs(fl, init[i], Decode(fl, init)[k]);
      assert s[i] == init[i];
    } else {
      assert ReadsAs(fl, s[|s| - 1], Decode(fl, s)[k]);
    }
  }

  predicate AllFloats(fl: Floats, adds: seq<Add>) {
    forall i :: 0 <= i < |adds| ==> fl.isFloat(adds[i].val)
  }

  /** What a stored add reads back as: its score, cast to an integer, and its value. */
  function Stored(fl: Floats, a: Add): (nat, real) {
    (FloorToNat(fl.round(a.ts)), a.val)
  }

  /** Whatever was trimmed, displaced or cut off by the limit, a query only shows values that
      were added, with their rounded times, and whose scores reach the bound. */
  lemma RecentWasAdded(fl: Floats, adds: seq<Add>, since: nat, limit: nat, k: nat) returns (i: nat)
    requires Faithful(fl) && AllFloats(fl, adds) && k < |SeriesRecent(fl, Trimmed(fl, adds), since, limit)|
    ensures i < |adds| && SeriesRecent(fl, Trimmed(fl, adds), since, limit)[k] == Stored(fl, adds[i])
    ensures fl.round(adds[i].ts) >= fl.round(since)
  {
    hide Decode, Trimmed, AtLeast, ParseMemberValue, EntryOf;
    var s := AtLeast(fl.round(since), Trimmed(fl, adds));
    var shown := LastN(s, limit);
    DecodeValues(fl, shown, k);
    var j :| 0 <= j < |shown| && ReadsAs(fl, shown[j], Decode(fl, shown)[k]);
    assert shown[j] in s;
    AtLeastContents(fl.round(since), Trimmed(fl, adds));
    StoredWasAdded(fl, adds, shown[j]);
    i :| 0 <= i < |adds| && shown[j] == EntryOf(fl, adds[i]);
    EntryOfIs(fl, adds[i]);
    ParseRoundTrip(fl, adds[i].ts, adds[i].val, adds[i].counter);
  }

  // ----- a query returns exactly the recent adds, in order of time

  /** The adds that satisfy `p`, in the order in which they were made, as they read back. */
  function Kept(fl: Floats, adds: seq<Add>, p: Add -> bool): seq<(nat, real)> {
    if |adds| == 0 then []
    else
      var a := adds[|adds| - 1];
      var before := Kept(fl, adds[..|adds| - 1], p);
      if p(a) then before + [Stored(fl, a)] else before
  }

  /** The score of the add is at least that of `since`. */
  function Recent(fl: Floats, since: nat): Add -> bool {
    (a: Add) => fl.round(a.ts) >= fl.round(since)
  }

  lemma {:induction false} DecodeConcat(fl: Floats, a: seq<Entry>, b: seq<Entry>)
    ensures Decode(fl, a + b) == Decode(fl, a) + Decode(fl, b)
  {
    hide ParseMemberValue;
    if |b| == 0 {
      assert a + b == a;
    } else {
      DecodeConcat(fl, a, b[..|b| - 1]);
      assert (a + b)[..|a + b| - 1] == a + b[..|b| - 1];
    }
  }

  lemma {:induction false} DecodeInsert(fl: Floats, e: Entry, s: seq<Entry>)
    ensures multiset(Decode(fl, InsertEntry(e, s))) == multiset(Decode(fl, [e])) + multiset(Decode(fl, s))
  {
    hide Decode, Leq;
    if |s| == 0 || Leq(e, s[0]) {
      DecodeConcat(fl, [e], s);
    } else {
      DecodeInsert(fl, e, s[1..]);
      DecodeConcat(fl, [s[0]], InsertEntry(e, s[1..]));
      DecodeConcat(fl, [s[0]], s[1..]);
      assert s == [s[0]] + s[1..];
    }
  }

  lemma DecodeAdd(fl: Floats, a: Add)
    requires Faithful(fl) && fl.isFloat(a.val)
    ensures EntryOf(fl, a).score == fl.round(a.ts) && Decode(fl, [EntryOf(fl, a)]) == [Stored(fl, a)]
  {
    hide ParseMemberValue, MemberText;
    ParseRoundTrip(fl, a.ts, a.val, a.counter);
    assert [EntryOf(fl, a)][..0] == [];
  }

  /** With distinct counters an add to the log displaces nothing. */
  lemma LogInserts(fl: Floats, adds: seq<Add>)
    requires Faithful(fl) && CountersDistinct(adds) && |adds| > 0
    ensures Log(fl, adds) == InsertEntry(EntryOf(fl, adds[|adds| - 1]), Log(fl, adds[..|adds| - 1]))
  {
    hide EntryOf, InsertEntry, Faithful, CountersDistinct, Without;
    var before, e := Log(fl, adds[..|adds| - 1]), EntryOf(fl, adds[|adds| - 1]);
    assert CountersDistinct(adds[..|adds| - 1]) by { DistinctBefore(adds); }
    forall i | 0 <= i < |before| ensures before[i].member != e.member {
      LogKeepsEverything(fl, adds[..|adds| - 1], before[i]);
      NewMember(fl, adds, before[i]);
    }
    WithoutContents(e.member, before);
  }

  lemma DistinctBefore(adds: seq<Add>)
    requires CountersDistinct(adds) && |adds| > 0
    ensures CountersDistinct(adds[..|adds| - 1])
  {
  }

  lemma {:induction false} LogOrdered(fl: Floats, adds: seq<Add>)
    ensures Ordered(Log(fl, adds))
  {
    hide Ordered, EntryOf, InsertEntry, Without;
    if |adds| == 0 {
      OrderedEmpty();
    } else {
      var before, e := Log(fl, adds[..|adds| - 1]), EntryOf(fl, adds[|adds| - 1]);
      LogOrdered(fl, adds[..|adds| - 1]);
      WithoutOrdered(e.member, before);
      InsertOrdered(e, Without(e.member, before));
    }
  }

  lemma {:induction false} LogReadsBack(fl: Floats, adds: seq<Add>, since: nat)
    requires Faithful(fl) && AllFloats(fl, adds) && CountersDistinct(adds)
    ensures multiset(Decode(fl, AtLeast(fl.round(since), Log(fl, adds)))) == multiset(Kept(fl, adds, Recent(fl, since)))
  {
    hide EntryOf, Decode, AtLeast, InsertEntry, Log, Faithful, CountersDistinct, Stored;
    var bound := fl.round(since);
    if |adds| == 0 {
      LogOfNothing(fl, bound);
    } else {
      var before, a := adds[..|adds| - 1], adds[|adds| - 1];
      DistinctBefore(adds);
      LogReadsBack(fl, before, since);
      LogInserts(fl, adds);
      LogOrdered(fl, before);
      AtLeastInsert(bound, EntryOf(fl, a), Log(fl, before));
      DecodeAdd(fl, a);
      if Recent(fl, since)(a) {
        DecodeInsert(fl, EntryOf(fl, a), AtLeast(bound, Log(fl, before)));
      }
    }
  }

  lemma LogOfNothing(fl: Floats, bound: real)
    ensures Decode(fl, AtLeast(bound, Log(fl, []))) == []
  {
  }

  ghost predicate InTimeOrder(r: seq<(nat, real)>) {
    forall i, j :: 0 <= i < j < |r| ==> r[i].0 <= r[j].0
  }

  lemma {:induction false} DecodeOrdered(fl: Floats, s: seq<Entry>)
    requires Ordered(s)
    ensures InTimeOrder(Decode(fl, s))
    ensures forall k :: 0 <= k < |Decode(fl, s)| ==> |s| > 0 && Decode(fl, s)[k].0 <= FloorToNat(s[|s| - 1].score)
  {
    hide ParseMemberValue;
    if |s| > 1 {
      assert Leq(s[|s| - 2], s[|s| - 1]);
      DecodeOrdered(fl, s[..|s| - 1]);
    }
  }

  lemma {:induction false} AtLeastOrdered(bound: real, s: seq<Entry>)
    requires Ordered(s)
    ensures Ordered(AtLeast(bound, s))
  {
    hide Leq;
    if |s| > 0 {
      AtLeastOrdered(bound, s[1..]);
      AtLeastContents(bound, s[1..]);
      var r := AtLeast(bound, s[1..]);
      forall j | 0 <= j < |r| ensures Leq(s[0], r[j]) {
        assert r[j] in s[1..];
      }
    }
  }

  /** Reading back, for any rounding of timestamps to scores: above every cutoff, a query
      without limit returns exactly the adds whose score is at least that of `since`, each
      once, in order of time. */
  lemma QueryReturnsRecentAdds(fl: Floats, adds: seq<Add>, since: nat)
    requires Faithful(fl) && AllFloats(fl, adds) && CountersDistinct(adds)
    requires forall i :: 0 <= i < |adds| ==> !Trims(fl, adds[i], fl.round(since))
    ensures var r := SeriesRecent(fl, Trimmed(fl, adds), since, 0);
            multiset(r) == multiset(Kept(fl, adds, Recent(fl, since))) && InTimeOrder(r)
  {
    hide Decode, AtLeast, Log, Trimmed, Trims, Faithful, CountersDistinct, InTimeOrder, Ordered, Kept;
    TrimmingIsInvisible(fl, adds, since, 0);
    LogReadsBack(fl, adds, since);
    LogOrdered(fl, adds);
    AtLeastOrdered(fl.round(since), Log(fl, adds));
    DecodeOrdered(fl, AtLeast(fl.round(since), Log(fl, adds)));
  }

  ghost predicate Monotone(fl: Floats) {
    forall m, n :: m <= n ==> fl.round(m) <= fl.round(n)
  }

  function NotBefore(since: nat): Add -> bool {
    (a: Add) => a.ts >= since
  }

  /** Made before `since`, but with the same score. */
  function Blurred(fl: Floats, since: nat): Add -> bool {
    (a: Add) => a.ts < since && fl.round(a.ts) == fl.round(since)
  }

  lemma {:induction false} KeptSplits(fl: Floats, adds: seq<Add>, since: nat)
    requires Monotone(fl)
    ensures multiset(Kept(fl, adds, Recent(fl, since))) ==
            multiset(Kept(fl, adds, NotBefore(since))) + multiset(Kept(fl, adds, Blurred(fl, since)))
  {
    hide Stored;
    if |adds| > 0 {
      var a := adds[|adds| - 1];
      KeptSplits(fl, adds[..|adds| - 1], since);
      assert Recent(fl, since)(a) <==> NotBefore(since)(a) || Blurred(fl, since)(a) by {
        assert a.ts <= since ==> fl.round(a.ts) <= fl.round(since);
        assert since <= a.ts ==> fl.round(since) <= fl.round(a.ts);
      }
    }
  }

  lemma {:induction false} KeptNone(fl: Floats, adds: seq<Add>, p: Add -> bool)
    ensures Kept(fl, adds, p) == [] <==> forall i :: 0 <= i < |adds| ==> !p(adds[i])
  {
    if |adds| > 0 {
      KeptNone(fl, adds[..|adds| - 1], p);
      assert forall i :: 0 <= i < |adds| - 1 ==> adds[..|adds| - 1][i] == adds[i];
    }
  }

  lemma NoneBlurred(fl: Floats, adds: seq<Add>, since: nat)
    ensures Kept(fl, adds, Blurred(fl, since)) == [] <==>
            forall i :: 0 <= i < |adds| && adds[i].ts < since ==> fl.round(adds[i].ts) != fl.round(since)
  {
    hide Kept;
    KeptNone(fl, adds, Blurred(fl, since));
    if Kept(fl, adds, Blurred(fl, since)) == [] {
      forall i | 0 <= i < |adds| && adds[i].ts < since ensures fl.round(adds[i].ts) != fl.round(since) {
        assert !Blurred(fl, since)(adds[i]);
      }
    }
  }

  /** With a monotone rounding no add from `since` on is missing, and whatever else is returned
      rounds to the same score as `since`; so the answer is exactly the adds from `since` on if
      and only if no earlier add rounds to the score of `since`. */
  lemma QueryMissesNothing(fl: Floats, adds: seq<Add>, since: nat)
    requires Faithful(fl) && AllFloats(fl, adds) && CountersDistinct(adds) && Monotone(fl)
    requires forall i :: 0 <= i < |adds| ==> !Trims(fl, adds[i], fl.round(since))
    ensures var r := SeriesRecent(fl, Trimmed(fl, adds), since, 0);
            && multiset(r) == multiset(Kept(fl, adds, NotBefore(since))) + multiset(Kept(fl, adds, Blurred(fl, since)))
            && (multiset(r) == multiset(Kept(fl, adds, NotBefore(since)))
                <==> forall i :: 0 <= i < |adds| && adds[i].ts < since ==> fl.round(adds[i].ts) != fl.round(since))
  {
    hide SeriesRecent, Trimmed, Trims, Faithful, CountersDistinct, AllFloats, Monotone, Kept;
    QueryReturnsRecentAdds(fl, adds, since);
    KeptSplits(fl, adds, since);
    var blurred := Kept(fl, adds, Blurred(fl, since));
    NoneBlurred(fl, adds, since);
    var exact := multiset(Kept(fl, adds, NotBefore(since)));
    if |blurred| > 0 {
      assert (exact + multiset(blurred))[blurred[0]] > exact[blurred[0]];
    } else {
      assert exact + multiset(blurred) == exact;
    }
  }

  lemma TrimmedOne(fl: Floats, a: Add)
    ensures Trimmed(fl, [a]) == SeriesAdd(fl, [], a.ts, a.val, a.window, a.counter)
  {
    hide SeriesAdd;
    var before := [a][..|[a]| - 1];
    assert before == [];
    assert Trimmed(fl, before) == [];
  }

  /** The failing input.  Unix nanoseconds of the present day, about 1.8e18, are multiples of
      256 as 64-bit floats; an add that rounds up to `since` is returned, with `since` as its
      time. */
  lemma EarlierAddIsReturned(fl: Floats, since: nat, a: Add)
    requires Faithful(fl) && fl.isFloat(a.val) && a.window == 0
    requires a.ts < since && fl.round(a.ts) == fl.round(since) == since as real
    ensures SeriesRecent(fl, Trimmed(fl, [a]), since, 0) == [(since, a.val)]
  {
    hide Decode, MemberText;
    DecodeAdd(fl, a);
    EntryOfIs(fl, a);
    var stored := Trimmed(fl, [a]);
    TrimmedOne(fl, a);
    assert stored == SeriesAdd(fl, [], a.ts, a.val, a.window, a.counter) == [EntryOf(fl, a)];
    assert stored[1..] == [];
    assert AtLeast(fl.round(since), stored) == stored;
  }

  /** That input in the flesh: a rounding to multiples of 256, as 64-bit floats round the
      nanoseconds of the year 2027, and an add one nanosecond before the bound. */
  lemma EarlierAddExample() returns (fl: Floats, since: nat, a: Add)
    ensures Faithful(fl) && Monotone(fl) && forall n :: fl.round(n) == ((n + 128) / 256 * 256) as real
    ensures since == 1_800_000_000_000_000_000 && a.ts == since - 1
    ensures SeriesRecent(fl, Trimmed(fl, [a]), since, 0) == [(since, a.val)]
  {
    var text := FaithfulIsPossible();
    fl := text.(round := n => ((n + 128) / 256 * 256) as real);
    since := 1_800_000_000_000_000_000;
    a := Add(since - 1, 1.0, 0, 1);
    assert fl.round(a.ts) == since as real && fl.round(since) == since as real;
    assert FloorToNat(1.0) == 1;
    hide SeriesRecent, Trimmed;
    EarlierAddIsReturned(fl, since, a);
  }

  lemma {:induction false} DecodeAll(fl: Floats, s: seq<Entry>)
    requires forall i :: 0 <= i < |s| ==> ParseMemberValue(fl, s[i].member).Some?
    ensures |Decode(fl, s)| == |s|
  {
    hide ParseMemberValue;
    if |s| > 0 {
      DecodeAll(fl, s[..|s| - 1]);
    }
  }

  /** The limit takes the newest: a limited query is the end of the unlimited one, when every
      stored member parses. */
  lemma LimitTakesNewest(fl: Floats, s: seq<Entry>, since: nat, limit: nat)
    requires forall i :: 0 <= i < |s| ==> ParseMemberValue(fl, s[i].member).Some?
    ensures var all := SeriesRecent(fl, s, since, 0);
            SeriesRecent(fl, s, since, limit) == if 0 < limit < |all| then all[|all| - limit..] else all
  {
    hide Decode, ParseMemberValue, AtLeast;
    var t := AtLeast(fl.round(since), s);
    AtLeastContents(fl.round(since), s);
    forall i | 0 <= i < |t| ensures ParseMemberValue(fl, t[i].member).Some? {
      assert t[i] in s;
    }
    if 0 < limit < |t| {
      var cut := |t| - limit;
      assert t == t[..cut] + t[cut..];
      DecodeConcat(fl, t[..cut], t[cut..]);
      DecodeAll(fl, t[..cut]);
    }
    DecodeAll(fl, t);
  }

  // ----- what one add leaves

  /** After an add exactly these entries are stored: the new one and the old ones of other
      members, without those that score at most the time one window before, if there is a window. */
  lemma AddLeaves(fl: Floats, s: seq<Entry>, ts: nat, val: real, window: nat, counter: nat, x: Entry)
    ensures var member := MemberText(ts, fl.show(val), counter);
            x in SeriesAdd(fl, s, ts, val, window, counter) <==>
              && (x == Entry(fl.round(ts), member) || (x in s && x.member != member))
              && (window == 0 || x.score > fl.round(if ts < window then 0 else ts - window))
  {
    hide Zadd, RemoveUpTo, MemberText;
    var e := Entry(fl.round(ts), MemberText(ts, fl.show(val), counter));
    ZaddContents(s, e);
    RemoveContents(fl.round(Monus(ts, window)), Zadd(s, e));
  }

  lemma {:induction false} TrimmedOrdered(fl: Floats, adds: seq<Add>)
    ensures Ordered(Trimmed(fl, adds))
  {
    hide Ordered, InsertEntry, Without, RemoveUpTo;
    if |adds| == 0 {
      OrderedEmpty();
    } else {
      var s, a := Trimmed(fl, adds[..|adds| - 1]), adds[|adds| - 1];
      TrimmedOrdered(fl, adds[..|adds| - 1]);
      var e := EntryOf(fl, a);
      EntryOfIs(fl, a);
      WithoutOrdered(e.member, s);
      InsertOrdered(e, Without(e.member, s));
      RemoveOrdered(fl.round(Monus(a.ts, a.window)), Zadd(s, e));
    }
  }

  /** In every stored series scores never fall, and entries of one score are in the bytewise
      order of their members: a prefix first, then by the first byte that differs. */
  lemma StoredInOrder(fl: Floats, adds: seq<Add>, i: nat, j: nat)
    requires i < j < |Trimmed(fl, adds)|
    ensures var a, b := Trimmed(fl, adds)[i], Trimmed(fl, adds)[j];
            && a.score <= b.score
            && (a.score == b.score ==>
                  || a.member <= b.member
                  || exists k: nat :: k < |a.member| && k < |b.member|
                       && a.member[..k] == b.member[..k] && a.member[k] < b.member[k])
  {
    hide Trimmed, LexLeq;
    TrimmedOrdered(fl, adds);
    LexLeqMeans(Trimmed(fl, adds)[i].member, Trimmed(fl, adds)[j].member);
  }
}
