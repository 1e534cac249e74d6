/**
 Device ids of the ingest API's control store: devices are seeded under given ids, or issued an
 id made of the hardware id's prefix and one more than the largest suffix in the table.
 */
module DeviceIds {
  import opened Wrappers
  import Seqs

  /** The stores differ in LIKE: SQLite ignores case. */
  datatype Backend = Sqlite | Postgres

  // ----------------------------------------------------------------------- decimals

  predicate IsDigit(c: char) { '0' <= c <= '9' }

  function DigitOf(d: nat): (c: char)
    requires d < 10
    ensures IsDigit(c) && ValueOf(c) == d
  {
    '0' + d as char
  }

  function ValueOf(c: char): nat
    requires IsDigit(c)
  {
    c as int - '0' as int
  }

  function Decimal(n: nat): (s: string)
    ensures s != [] && forall i :: 0 <= i < |s| ==> IsDigit(s[i])
  {
    if n < 10 then [DigitOf(n)] else Decimal(n / 10) + [DigitOf(n % 10)]
  }

  /** The :03d format. */
  function Padded(n: nat): (s: string)
    ensures s != [] && forall i :: 0 <= i < |s| ==> IsDigit(s[i])
  {
    var s := Decimal(n);
    if |s| == 1 then "00" + s else if |s| == 2 then "0" + s else s
  }

  predicate IsSpace(c: char) {
    c == ' ' || 9 <= c as int <= 13 || 28 <= c as int <= 31
  }

  function Stripped(s: string): string {
    if s != [] && IsSpace(s[0]) then Stripped(s[1..])
    else if s != [] && IsSpace(s[|s| - 1]) then Stripped(s[..|s| - 1])
    else s
  }

  /** Digits with single underscores between them. */
  function Unsigned(s: string): Option<nat> {
    if s == [] || !IsDigit(s[|s| - 1]) then None
    else if |s| == 1 then Some(ValueOf(s[0]))
    else
      var front := Unsigned(if s[|s| - 2] == '_' then s[..|s| - 2] else s[..|s| - 1]);
      if front.None? then None else Some(10 * front.value + ValueOf(s[|s| - 1]))
  }

  /** int(text) */
  function ParseInt(text: string): Option<int> {
    var s := Stripped(text);
    if s != [] && (s[0] == '-' || s[0] == '+') then
      var u := Unsigned(s[1..]);
      if u.None? then None else
      var v: int := u.value;
      if s[0] == '-' then Some(-v) else Some(v)
    else
      var u := Unsigned(s);
      if u.None? then None else Some(u.value)
  }

  predicate AllDigits(s: string) {
    forall i :: 0 <= i < |s| ==> IsDigit(s[i])
  }

  lemma {:induction false} UnsignedDecimal(n: nat)
    ensures Unsigned(Decimal(n)) == Some(n)
  {
    if n >= 10 {
      var s := Decimal(n);
      UnsignedDecimal(n / 10);
      assert s[..|s| - 1] == Decimal(n / 10);
    }
  }

  lemma {:induction false} LeadingZero(s: string)
    requires s != [] && AllDigits(s)
    ensures Unsigned("0" + s) == Unsigned(s)
  {
    var z := "0" + s;
    assert z[|z| - 1] == s[|s| - 1];
    if |s| > 1 {
      LeadingZero(s[..|s| - 1]);
      assert z[..|z| - 1] == "0" + s[..|s| - 1];
      assert z[|z| - 2] == s[|s| - 2];
    } else {
      assert z[..|z| - 1] == "0" && z[|z| - 2] == '0';
      assert Unsigned("0") == Some(0);
    }
  }

  lemma DigitsParse(s: string)
    requires s != [] && AllDigits(s) && Unsigned(s).Some?
    ensures ParseInt(s) == Some(Unsigned(s).value)
  {
    assert Stripped(s) == s;
  }

  /** What the format prints, int reads back. */
  lemma ParsePadded(n: nat)
    ensures ParseInt(Padded(n)) == Some(n)
  {
    var s := Decimal(n);
    UnsignedDecimal(n);
    LeadingZero(s);
    if |s| == 1 {
      LeadingZero("0" + s);
      assert "00" + s == "0" + ("0" + s);
    }
    DigitsParse(Padded(n));
  }

  // ----------------------------------------------------------- what decimals stand for

  /** The number a string of ASCII digits stands for. */
  function Worth(s: string): int {
    if s == [] then 0 else 10 * Worth(s[..|s| - 1]) + (s[|s| - 1] as int - 48)
  }

  /** Decimals are the number's digits, without a leading zero. */
  lemma {:induction false} DecimalIs(n: nat)
    ensures Worth(Decimal(n)) == n && (|Decimal(n)| > 1 ==> Decimal(n)[0] != '0')
    ensures forall i :: 0 <= i < |Decimal(n)| ==> 48 <= Decimal(n)[i] as int <= 57
  {
    var s := Decimal(n);
    if n < 10 {
      assert s[..|s| - 1] == [];
    } else {
      DecimalIs(n / 10);
      assert s[..|s| - 1] == Decimal(n / 10);
      if n / 10 < 10 { assert Decimal(n / 10) == [DigitOf(n / 10)]; }
    }
  }

  /** The format fills up with zeros to three characters. */
  lemma PaddedIs(n: nat)
    ensures var s, d := Padded(n), Decimal(n);
            && |s| == (if |d| < 3 then 3 else |d|) && s[|s| - |d|..] == d
            && forall i :: 0 <= i < |s| - |d| ==> s[i] == '0'
  {}

  /** Digits with single underscores inside. */
  predicate Numeral(s: string) {
    && s != [] && s[0] != '_' && s[|s| - 1] != '_'
    && (forall i :: 0 <= i < |s| ==> s[i] == '_' || 48 <= s[i] as int <= 57)
    && forall i :: 0 <= i < |s| - 1 ==> s[i] != '_' || s[i + 1] != '_'
  }

  function Bare(s: string): string {
    if s == [] then [] else Bare(s[..|s| - 1]) + if s[|s| - 1] == '_' then [] else [s[|s| - 1]]
  }

  lemma BareOne(s: string)
    requires s != [] && s[|s| - 1] != '_'
    ensures Worth(Bare(s)) == 10 * Worth(Bare(s[..|s| - 1])) + (s[|s| - 1] as int - 48)
  {
    var b := Bare(s);
    assert b[..|b| - 1] == Bare(s[..|s| - 1]);
  }

  /** int accepts exactly numerals, and reads them as the number their digits stand for. */
  lemma {:induction false} UnsignedIs(s: string)
    ensures Unsigned(s).Some? <==> Numeral(s)
    ensures Unsigned(s).Some? ==> Unsigned(s).value == Worth(Bare(s))
  {
    if s != [] && IsDigit(s[|s| - 1]) {
      BareOne(s);
      if |s| == 1 {
        assert s[..0] == [] && Bare([]) == [];
      } else if s[|s| - 2] == '_' {
        UnsignedIs(s[..|s| - 2]);
        var t := s[..|s| - 1];
        assert t[..|t| - 1] == s[..|s| - 2] && Bare(t) == Bare(t[..|t| - 1]);
        NumeralFront(s, |s| - 2);
      } else {
        UnsignedIs(s[..|s| - 1]);
        NumeralFront(s, |s| - 1);
      }
    }
  }

  lemma NumeralFront(s: string, n: nat)
    requires |s| >= 2 && IsDigit(s[|s| - 1])
    requires n == if s[|s| - 2] == '_' then |s| - 2 else |s| - 1
    ensures Numeral(s) <==> Numeral(s[..n])
  {
    var f := s[..n];
    if Numeral(f) {
      forall i | 0 <= i < |s| - 1 ensures s[i] != '_' || s[i + 1] != '_' {
        if i + 1 < n { assert f[i] != '_' || f[i + 1] != '_'; }
      }
      forall i | 0 <= i < |s| ensures s[i] == '_' || 48 <= s[i] as int <= 57 {
        if i < n { assert f[i] == '_' || 48 <= f[i] as int <= 57; }
      }
    }
  }

  /** ASCII white space: blank, tab to carriage return, and the four separators. */
  predicate IsBlank(c: char) {
    c as int in {32, 9, 10, 11, 12, 13, 28, 29, 30, 31}
  }

  /** Stripping takes the white space off both ends and nothing else. */
  lemma {:induction false} StrippedIs(s: string) returns (a: nat, b: nat)
    ensures a <= b <= |s| && Stripped(s) == s[a..b]
    ensures forall i :: (0 <= i < a || b <= i < |s|) ==> IsBlank(s[i])
    ensures a < b ==> !IsBlank(s[a]) && !IsBlank(s[b - 1])
    decreases |s|
  {
    a, b := 0, |s|;
    if s != [] && IsSpace(s[0]) {
      a, b := StrippedIs(s[1..]);
      assert forall i :: 1 <= i < |s| ==> s[i] == s[1..][i - 1];
      assert s[1..][a..b] == s[a + 1..b + 1];
      a, b := a + 1, b + 1;
    } else if s != [] && IsSpace(s[|s| - 1]) {
      a, b := StrippedIs(s[..|s| - 1]);
      assert s[..|s| - 1][a..b] == s[a..b];
    }
  }

  /** A sign may stand before the numeral. */
  lemma ParseIntIs(text: string)
    ensures var s := Stripped(text);
            var signed := s != [] && (s[0] == '-' || s[0] == '+');
            var digits := if signed then s[1..] else s;
            && (ParseInt(text).Some? <==> Numeral(digits))
            && (Numeral(digits) ==> ParseInt(text).value == if signed && s[0] == '-' then -Worth(Bare(digits)) else Worth(Bare(digits)))
  {
    var s := Stripped(text);
    UnsignedIs(if s != [] && (s[0] == '-' || s[0] == '+') then s[1..] else s);
  }

  // --------------------------------------------------------------------- prefix, suffix

  /** rsplit("-", 1)[1]; None when there is no dash. */
  function AfterLastDash(s: string): Option<string> {
    if s == [] then None
    else if s[|s| - 1] == '-' then Some([])
    else
      var front := AfterLastDash(s[..|s| - 1]);
      if front.None? then None else Some(front.value + [s[|s| - 1]])
  }

  /** The part after the last dash. */
  lemma {:induction false} AfterLastDashIs(s: string)
    ensures AfterLastDash(s).None? <==> '-' !in s
    ensures AfterLastDash(s).Some? ==>
      var t := AfterLastDash(s).value;
      |t| < |s| && '-' !in t && s == s[..|s| - |t| - 1] + "-" + t
  {
    if s != [] {
      var front := s[..|s| - 1];
      AfterLastDashIs(front);
      assert s == front + [s[|s| - 1]];
    }
  }

  lemma {:induction false} SuffixOf(prefix: string, digits: string)
    requires AllDigits(digits)
    ensures AfterLastDash(prefix + "-" + digits) == Some(digits)
  {
    var s := prefix + "-" + digits;
    if digits == [] {
      assert s[|s| - 1] == '-';
    } else {
      var front := digits[..|digits| - 1];
      SuffixOf(prefix, front);
      assert s[..|s| - 1] == prefix + "-" + front;
      assert s[|s| - 1] == digits[|digits| - 1];
      assert front + [digits[|digits| - 1]] == digits;
    }
  }

  function BeforeDash(s: string): string {
    if s == [] || s[0] == '-' then [] else [s[0]] + BeforeDash(s[1..])
  }

  /** The part before the first dash; everything if there is none. */
  lemma {:induction false} BeforeDashIs(s: string)
    ensures var r := BeforeDash(s);
            && |r| <= |s| && s[..|r|] == r && '-' !in r && (|r| < |s| ==> s[|r|] == '-')
  {
    if s != [] && s[0] != '-' { BeforeDashIs(s[1..]); }
  }

  function LowerChar(c: char): char {
    if 'A' <= c <= 'Z' then c + 32 as char else c
  }

  function Lower(s: string): (r: string)
    ensures |r| == |s| && forall i :: 0 <= i < |s| ==> r[i] == LowerChar(s[i])
  {
    if s == [] then [] else Lower(s[..|s| - 1]) + [LowerChar(s[|s| - 1])]
  }

  predicate IsPlain(c: char) { 'a' <= c <= 'z' || IsDigit(c) }

  function Plain(s: string): (r: string)
    ensures forall i :: 0 <= i < |r| ==> IsPlain(r[i])
  {
    if s == [] then [] else Plain(s[..|s| - 1]) + if IsPlain(s[|s| - 1]) then [s[|s| - 1]] else []
  }

  /** Which letters change, and which characters are kept. */
  lemma CharacterClasses()
    ensures var upper, lower := "ABCDEFGHIJKLMNOPQRSTUVWXYZ", "abcdefghijklmnopqrstuvwxyz";
            && (forall i :: 0 <= i < 26 ==> LowerChar(upper[i]) == lower[i])
            && (forall c: char :: c !in upper ==> LowerChar(c) == c)
            && (forall c: char :: IsPlain(c) <==> c in lower || c in "0123456789")
  {
    var upper, lower := "ABCDEFGHIJKLMNOPQRSTUVWXYZ", "abcdefghijklmnopqrstuvwxyz";
    Alphabet(upper, 65);
    Alphabet(lower, 97);
    Alphabet("0123456789", 48);
  }

  lemma Alphabet(s: string, first: nat)
    requires first + |s| < 128 && forall i :: 0 <= i < |s| ==> s[i] as int == first + i
    ensures forall c: char :: c in s <==> first <= c as int < first + |s|
  {
    forall c: char | first <= c as int < first + |s| ensures c in s { assert s[c as int - first] == c; }
  }

  lemma PlainOne(c: char)
    ensures Plain([c]) == if IsPlain(c) then [c] else []
  {
    assert [c][..0] == [];
  }

  /** Exactly the other characters are dropped, in place. */
  lemma {:induction false} PlainConcat(a: string, b: string)
    ensures Plain(a + b) == Plain(a) + Plain(b)
  {
    if b == [] {
      assert a + b == a;
    } else {
      PlainConcat(a, b[..|b| - 1]);
      Seqs.PeelRight(a, b);
      PlainSnoc(a + b);
      PlainSnoc(b);
      Seqs.Assoc(Plain(a), Plain(b[..|b| - 1]), if IsPlain(b[|b| - 1]) then [b[|b| - 1]] else []);
    }
  }

  lemma {:induction false} PlainSnoc(s: string)
    requires s != []
    ensures Plain(s) == Plain(s[..|s| - 1]) + if IsPlain(s[|s| - 1]) then [s[|s| - 1]] else []
  {}

  /** The normalized prefix: lower-case letters and digits, or "device". */
  function Prefix(hardware: string): (p: string)
    ensures p != [] && forall i :: 0 <= i < |p| ==> IsPlain(p[i])
  {
    var p := Plain(Lower(BeforeDash(hardware)));
    if p == [] then "device" else p
  }

  /** Without a letter or digit before the first dash the prefix is "device". */
  lemma PrefixIs(hardware: string)
    ensures var kept := Plain(Lower(BeforeDash(hardware)));
            Prefix(hardware) == if kept == "" then "device" else kept
    ensures (forall c :: c in Lower(BeforeDash(hardware)) ==> !IsPlain(c)) ==> Prefix(hardware) == "device"
  {
    if forall c :: c in Lower(BeforeDash(hardware)) ==> !IsPlain(c) { NothingPlain(Lower(BeforeDash(hardware))); }
  }

  lemma {:induction false} NothingPlain(s: string)
    requires forall c :: c in s ==> !IsPlain(c)
    ensures Plain(s) == []
  {
    if s != [] { NothingPlain(s[..|s| - 1]); }
  }

  function StartsWith(s: string, p: string): bool {
    |p| <= |s| && s[..|p|] == p
  }

  /** device_id LIKE 'prefix-%'; a normalized prefix holds no wildcard. */
  predicate Like(backend: Backend, id: string, prefix: string) {
    StartsWith(if backend.Sqlite? then Lower(id) else id, prefix + "-")
  }

  /** LIKE: the prefix, a dash and anything; SQLite looks at the lower-case form of the id. */
  lemma LikeIff(id: string, prefix: string)
    ensures Like(Postgres, id, prefix) <==> exists rest :: id == prefix + "-" + rest
    ensures Like(Sqlite, id, prefix) <==> exists rest :: Lower(id) == prefix + "-" + rest
  {
    StartsWithIff(id, prefix + "-");
    StartsWithIff(Lower(id), prefix + "-");
  }

  lemma StartsWithIff(s: string, p: string)
    ensures StartsWith(s, p) <==> exists rest :: s == p + rest
  {
    if StartsWith(s, p) { assert s == p + s[|p|..]; }
  }

  function SuffixNumber(id: string): Option<int> {
    var tail := AfterLastDash(id);
    if tail.None? then None else ParseInt(tail.value)
  }

  /** The scan of _next_device_id: the largest suffix number among the matching ids, at least 0. */
  ghost predicate IsLargestSuffix(backend: Backend, ids: set<string>, prefix: string, n: int) {
    && n >= 0
    && (forall id :: id in ids && Like(backend, id, prefix) && SuffixNumber(id).Some? ==> SuffixNumber(id).value <= n)
    && (n == 0 || exists id :: id in ids && Like(backend, id, prefix) && SuffixNumber(id) == Some(n))
  }

  function Generated(prefix: string, n: nat): string { prefix + "-" + Padded(n) }

  /** Prefix, dash, and the number with at least three digits. */
  lemma GeneratedIs(prefix: string, n: nat)
    ensures var g, d := Generated(prefix, n), Decimal(n);
            && g[..|prefix|] == prefix && g[|prefix|] == '-' && |g| == |prefix| + 1 + (if |d| < 3 then 3 else |d|)
            && g[|g| - |d|..] == d && forall i :: |prefix| < i < |g| - |d| ==> g[i] == '0'
  {
    PaddedIs(n);
  }

  lemma LowerPlain(p: string, s: string)
    requires forall i :: 0 <= i < |p| ==> IsPlain(p[i])
    ensures StartsWith(Lower(p + "-" + s), p + "-")
  {
    var whole := p + "-" + s;
    assert Lower(whole)[..|p| + 1] == p + "-" by {
      forall i | 0 <= i < |p| + 1 ensures Lower(whole)[i] == (p + "-")[i] {
        assert whole[i] == (p + "-")[i];
      }
    }
  }

  lemma GeneratedMatches(backend: Backend, prefix: string, n: nat)
    requires forall i :: 0 <= i < |prefix| ==> IsPlain(prefix[i])
    ensures Like(backend, Generated(prefix, n), prefix) && SuffixNumber(Generated(prefix, n)) == Some(n)
  {
    LowerPlain(prefix, Padded(n));
    SuffixOf(prefix, Padded(n));
    ParsePadded(n);
    assert Generated(prefix, n)[..|prefix| + 1] == prefix + "-";
  }

  /** One more than the largest suffix gives an id that is not in the table. */
  lemma GeneratedIsFresh(backend: Backend, ids: set<string>, prefix: string, n: int)
    requires IsLargestSuffix(backend, ids, prefix, n) && forall i :: 0 <= i < |prefix| ==> IsPlain(prefix[i])
    ensures Generated(prefix, n + 1) !in ids
  {
    GeneratedMatches(backend, prefix, n + 1);
  }

  // ------------------------------------------------------------------------ the table

  datatype Details = Details(token: string, model: Option<string>, firmware: Option<int>, site: Option<string>)

  datatype Device = Device(hardware: string, details: Details)

  /** Rows by device id, the primary key. */
  type Table = map<string, Device>

  predicate Holds(t: Table, id: string, hardware: string) {
    id in t && t[id].hardware == hardware
  }

  predicate Known(t: Table, hardware: string) {
    exists id :: id in t && t[id].hardware == hardware
  }

  /** The UNIQUE constraint: hardware determines the device. */
  ghost predicate UniqueHardware(t: Table) {
    forall a, b :: a in t && b in t && t[a].hardware == t[b].hardware ==> a == b
  }

  function SeedHardware(id: string): string { "seed-" + id }

  /** The upsert of one seeded device; None when the hardware id belongs to another device. */
  function SeedOne(t: Table, id: string, token: string): Option<Table> {
    if id in t then Some(t[id := t[id].(details := t[id].details.(token := token))])
    else if Known(t, SeedHardware(id)) then None
    else Some(t[id := Device(SeedHardware(id), Details(token, Some("seeded"), None, None))])
  }

  datatype Seed = Seed(id: string, token: string)

  function SeedAll(t: Table, seeds: seq<Seed>): Option<Table> {
    if seeds == [] then Some(t)
    else
      var before := SeedAll(t, seeds[..|seeds| - 1]);
      if before.None? then None else SeedOne(before.value, seeds[|seeds| - 1].id, seeds[|seeds| - 1].token)
  }

  /** Seeding fails exactly if a seed's id is new and its seed hardware id is already there. */
  lemma {:induction false} SeedAllFailsIff(t: Table, seeds: seq<Seed>)
    ensures SeedAll(t, seeds).None? <==>
              exists i :: 0 <= i < |seeds| && seeds[i].id !in t && Known(t, "seed-" + seeds[i].id)
  {
    if seeds != [] {
      var front, last := seeds[..|seeds| - 1], seeds[|seeds| - 1];
      SeedAllFailsIff(t, front);
      if SeedAll(t, front).Some? {
        SeedKeepsIds(t, front);
        SeedKnown(t, front, last.id);
        if last.id in SeedAll(t, front).value { SeededOnce(t, front, last.id); }
      }
      if i :| 0 <= i < |seeds| && seeds[i].id !in t && Known(t, "seed-" + seeds[i].id) {
        if i < |front| { assert front[i].id == seeds[i].id; }
      }
    }
  }

  /** A device that seeding added is one of the seeds'. */
  lemma {:induction false} SeededOnce(t: Table, seeds: seq<Seed>, id: string)
    requires SeedAll(t, seeds).Some? && id in SeedAll(t, seeds).value
    ensures id in t || exists i :: 0 <= i < |seeds| && seeds[i].id == id
  {
    if seeds != [] {
      var front := seeds[..|seeds| - 1];
      if id in SeedAll(t, front).value { SeededOnce(t, front, id); } else { assert seeds[|seeds| - 1].id == id; }
    }
  }

  ghost predicate LastSeed(seeds: seq<Seed>, i: nat) {
    i < |seeds| && forall j :: i < j < |seeds| ==> seeds[j].id != seeds[i].id
  }

  /** Seeding leaves a device without a seed as it is. */
  lemma {:induction false} SeedingSpares(t: Table, seeds: seq<Seed>, id: string)
    requires SeedAll(t, seeds).Some? && forall i :: 0 <= i < |seeds| ==> seeds[i].id != id
    ensures var u := SeedAll(t, seeds).value; (id in u <==> id in t) && (id in t ==> u[id] == t[id])
  {
    if seeds != [] { SeedingSpares(t, seeds[..|seeds| - 1], id); }
  }

  /** A seeded device has the token of its last seed; besides that a known device stays as it is
      and a new one is made from the seed. */
  lemma {:induction false} SeedAllIs(t: Table, seeds: seq<Seed>, i: nat)
    requires SeedAll(t, seeds).Some? && LastSeed(seeds, i)
    ensures var u, id := SeedAll(t, seeds).value, seeds[i].id; id in u && u[id] == SeededAs(t, id, seeds[i].token)
  {
    var front, last := seeds[..|seeds| - 1], seeds[|seeds| - 1];
    if i < |front| {
      SeedAllIs(t, front, i);
    } else {
      SeedAgain(t, front, last.id);
      SeedKeepsIds(t, front);
    }
  }

  function SeededAs(t: Table, id: string, token: string): Device {
    if id in t then Device(t[id].hardware, Details(token, t[id].details.model, t[id].details.firmware, t[id].details.site))
    else Device("seed-" + id, Details(token, Some("seeded"), None, None))
  }

  /** Seeded before or not, but for the token a device is as it would be. */
  lemma {:induction false} SeedAgain(t: Table, seeds: seq<Seed>, id: string)
    requires SeedAll(t, seeds).Some?
    ensures var u := SeedAll(t, seeds).value; id in u ==> u[id] == SeededAs(t, id, u[id].details.token)
  {
    if seeds != [] {
      SeedAgain(t, seeds[..|seeds| - 1], id);
      SeedKeepsIds(t, seeds[..|seeds| - 1]);
    }
  }

  lemma {:induction false} SeedKnown(t: Table, seeds: seq<Seed>, id: string)
    requires SeedAll(t, seeds).Some?
    ensures var u := SeedAll(t, seeds).value; id !in u ==> (Known(u, "seed-" + id) <==> Known(t, "seed-" + id))
  {
    var u := SeedAll(t, seeds).value;
    if id !in u {
      forall o ensures Holds(u, o, "seed-" + id) <==> Holds(t, o, "seed-" + id) {
        SeedAgain(t, seeds, o);
        SeedKeepsIds(t, seeds);
        SeedHardwareDiffers(o, id);
      }
      KnownIff(u, "seed-" + id);
      KnownIff(t, "seed-" + id);
    }
  }

  lemma SeedHardwareDiffers(a: string, b: string)
    ensures "seed-" + a == "seed-" + b ==> a == b
  {
    assert a == ("seed-" + a)[5..] && b == ("seed-" + b)[5..];
  }

  lemma KnownIff(t: Table, hardware: string)
    ensures Known(t, hardware) <==> exists id :: Holds(t, id, hardware)
  {
    if Known(t, hardware) {
      var id :| id in t && t[id].hardware == hardware;
      assert Holds(t, id, hardware);
    }
  }

  lemma {:induction false} SeedKeepsIds(t: Table, seeds: seq<Seed>)
    requires SeedAll(t, seeds).Some?
    ensures t.Keys <= SeedAll(t, seeds).value.Keys
  {
    if seeds != [] { SeedKeepsIds(t, seeds[..|seeds| - 1]); }
  }

  /** The id a hardware id gets: its own if known, else a generated one. */
  ghost predicate Assigns(backend: Backend, t: Table, hardware: string, id: string) {
    if Known(t, hardware) then Holds(t, id, hardware)
    else exists n :: IsLargestSuffix(backend, t.Keys, Prefix(hardware), n) && id == Generated(Prefix(hardware), n + 1)
  }

  /** Some id that would be generated is taken. */
  ghost predicate Collides(backend: Backend, t: Table, hardware: string) {
    !Known(t, hardware) && exists id :: id in t && Assigns(backend, t, hardware, id)
  }

  /** An id generated for unknown hardware is never already in the table, so the insert never
      violates a constraint and the retries are not used. */
  lemma NeverCollides(backend: Backend, t: Table, hardware: string)
    ensures !Collides(backend, t, hardware)
  {
    forall n | IsLargestSuffix(backend, t.Keys, Prefix(hardware), n) ensures Generated(Prefix(hardware), n + 1) !in t {
      GeneratedIsFresh(backend, t.Keys, Prefix(hardware), n);
    }
  }

  class Store {
    const backend: Backend
    var devices: Table
    var allowlist: set<string>

    constructor (backend: Backend)
      ensures this.backend == backend && devices == map[] && allowlist == {}
    {
      this.backend, devices, allowlist := backend, map[], {};
    }

    /** seed_devices: one transaction, rolled back by a violated constraint. */
    method SeedDevices(seeds: seq<Seed>) returns (ok: bool)
      modifies this`devices
      ensures ok <==> SeedAll(old(devices), seeds).Some?
      ensures devices == if ok then SeedAll(old(devices), seeds).value else old(devices)
    {
      var working := devices;
      for i := 0 to |seeds|
        invariant SeedAll(old(devices), seeds[..i]) == Some(working) && devices == old(devices)
      {
        assert seeds[..i + 1][..i] == seeds[..i];
        var id := seeds[i].id;
        if id in working {
          working := working[id := working[id].(details := working[id].details.(token := seeds[i].token))];
        } else if Known(working, SeedHardware(id)) {
          SeedingStops(old(devices), seeds, i + 1);
          return false;
        } else {
          working := working[id := Device(SeedHardware(id), Details(seeds[i].token, Some("seeded"), None, None))];
        }
      }
      assert seeds[..|seeds|] == seeds;
      devices, ok := working, true;
    }

    method FindByHardware(hardware: string) returns (r: Option<string>)
      ensures r.Some? <==> Known(devices, hardware)
      ensures r.Some? ==> Holds(devices, r.value, hardware)
    {
      var rest := devices.Keys;
      while rest != {}
        invariant rest <= devices.Keys
        invariant forall id :: id in devices.Keys - rest ==> devices[id].hardware != hardware
        decreases |rest|
      {
        var id :| id in rest;
        if devices[id].hardware == hardware {
          return Some(id);
        }
        rest := rest - {id};
      }
      r := None;
    }

    /** _next_device_id: scans the matching ids for the largest suffix. */
    method NextDeviceId(hardware: string) returns (r: string)
      ensures exists n :: IsLargestSuffix(backend, devices.Keys, Prefix(hardware), n) && r == Generated(Prefix(hardware), n + 1)
    {
      var prefix := Prefix(hardware);
      var maxSuffix := LargestSuffix(backend, devices.Keys, prefix);
      r := Generated(prefix, maxSuffix + 1);
    }

    /** One transaction; None when the insert violates a constraint. */
    method TryIssue(hardware: string, details: Details) returns (r: Option<string>)
      modifies this`devices, this`allowlist
      ensures r.Some? ==> Assigns(backend, old(devices), hardware, r.value)
                          && devices == old(devices)[r.value := Device(hardware, details)]
                          && allowlist == old(allowlist) + {hardware}
      ensures r.None? ==> Collides(backend, old(devices), hardware)
                          && devices == old(devices) && allowlist == old(allowlist)
    {
      var found := FindByHardware(hardware);
      var id;
      if found.None? {
        id := NextDeviceId(hardware);
        if id in devices {
          return None;
        }
        devices := devices[id := Device(hardware, details)];
      } else {
        id := found.value;
        devices := devices[id := devices[id].(details := details)];
      }
      allowlist := allowlist + {hardware};
      r := Some(id);
    }

    /** issue_device_token: up to three tries. */
    method IssueDeviceToken(hardware: string, details: Details) returns (r: Option<string>)
      modifies this`devices, this`allowlist
      ensures r.Some? ==> Assigns(backend, old(devices), hardware, r.value)
                          && devices == old(devices)[r.value := Device(hardware, details)]
                          && allowlist == old(allowlist) + {hardware}
      ensures r.None? ==> Collides(backend, old(devices), hardware)
                          && devices == old(devices) && allowlist == old(allowlist)
    {
      r := None;
      for attempt := 0 to 3
        invariant r.None? && devices == old(devices) && allowlist == old(allowlist)
        invariant attempt > 0 ==> Collides(backend, old(devices), hardware)
      {
        r := TryIssue(hardware, details);
        if r.Some? {
          return;
        }
      }
    }
  }

  /** The loop over the matching rows. */
  method LargestSuffix(backend: Backend, ids: set<string>, prefix: string) returns (maxSuffix: nat)
    ensures IsLargestSuffix(backend, ids, prefix, maxSuffix)
  {
    var rest := Matching(backend, ids, prefix);
    maxSuffix := 0;
    while rest != {}
      invariant rest <= Matching(backend, ids, prefix) && IsLargestSuffix(backend, ids - rest, prefix, maxSuffix)
      decreases |rest|
    {
      var candidate :| candidate in rest;
      LargestStep(backend, ids, rest, prefix, maxSuffix, candidate);
      var suffix := SuffixNumber(candidate);
      if suffix.Some? && suffix.value > maxSuffix {
        maxSuffix := suffix.value;
      }
      rest := rest - {candidate};
    }
    assert ids - rest == ids;
  }

  function Matching(backend: Backend, ids: set<string>, prefix: string): set<string> {
    set id | id in ids && Like(backend, id, prefix)
  }

  lemma LargestStep(backend: Backend, ids: set<string>, rest: set<string>, prefix: string, n: int, id: string)
    requires IsLargestSuffix(backend, ids - rest, prefix, n) && rest <= Matching(backend, ids, prefix) && id in rest
    ensures var s := SuffixNumber(id);
            IsLargestSuffix(backend, ids - (rest - {id}), prefix, if s.Some? && s.value > n then s.value else n)
  {
    LargestNext(backend, ids - rest, prefix, n, id);
    assert ids - (rest - {id}) == ids - rest + {id};
  }

  lemma {:induction false} SeedingStops(t: Table, seeds: seq<Seed>, i: nat)
    requires i <= |seeds| && SeedAll(t, seeds[..i]).None?
    ensures SeedAll(t, seeds).None?
  {
    if i < |seeds| {
      var front := seeds[..|seeds| - 1];
      assert front[..i] == seeds[..i];
      SeedingStops(t, front, i);
    } else {
      assert seeds[..i] == seeds;
    }
  }

  lemma LargestNext(backend: Backend, ids: set<string>, prefix: string, n: int, id: string)
    requires IsLargestSuffix(backend, ids, prefix, n) && Like(backend, id, prefix)
    ensures var s := SuffixNumber(id);
            IsLargestSuffix(backend, ids + {id}, prefix, if s.Some? && s.value > n then s.value else n)
  {
    var s := SuffixNumber(id);
    if n > 0 && !(s.Some? && s.value > n) {
      var w :| w in ids && Like(backend, w, prefix) && SuffixNumber(w) == Some(n);
      assert w in ids + {id};
    }
  }

  // --------------------------------------------------------------------- serial runs

  datatype Step =
    | Seeding(seeds: seq<Seed>)
    | Issuing(hardware: string, details: Details, id: string)

  /** What one call of the store does to the table. */
  ghost predicate Steps(backend: Backend, t: Table, u: Table, step: Step) {
    match step
    case Seeding(seeds) => u == if SeedAll(t, seeds).Some? then SeedAll(t, seeds).value else t
    case Issuing(hardware, details, id) =>
      Assigns(backend, t, hardware, id) && u == t[id := Device(hardware, details)]
  }

  /** Devices are never removed and keep their hardware id. */
  ghost predicate KeepsDevices(t: Table, u: Table) {
    forall id :: id in t ==> id in u && u[id].hardware == t[id].hardware
  }

  lemma SeedOneKeeps(t: Table, id: string, token: string)
    requires UniqueHardware(t) && SeedOne(t, id, token).Some?
    ensures UniqueHardware(SeedOne(t, id, token).value) && KeepsDevices(t, SeedOne(t, id, token).value)
  {}

  lemma {:induction false} SeedAllKeeps(t: Table, seeds: seq<Seed>)
    requires UniqueHardware(t) && SeedAll(t, seeds).Some?
    ensures UniqueHardware(SeedAll(t, seeds).value) && KeepsDevices(t, SeedAll(t, seeds).value)
  {
    if seeds != [] {
      var front := seeds[..|seeds| - 1];
      SeedAllKeeps(t, front);
      SeedOneKeeps(SeedAll(t, front).value, seeds[|seeds| - 1].id, seeds[|seeds| - 1].token);
    }
  }

  lemma IssueKeeps(backend: Backend, t: Table, hardware: string, details: Details, id: string)
    requires UniqueHardware(t) && Assigns(backend, t, hardware, id)
    ensures UniqueHardware(t[id := Device(hardware, details)]) && KeepsDevices(t, t[id := Device(hardware, details)])
    ensures !Known(t, hardware) ==> id !in t
  {
    NeverCollides(backend, t, hardware);
  }

  lemma StepKeeps(backend: Backend, t: Table, u: Table, step: Step)
    requires UniqueHardware(t) && Steps(backend, t, u, step)
    ensures UniqueHardware(u) && KeepsDevices(t, u)
  {
    if step.Seeding? {
      if SeedAll(t, step.seeds).Some? { SeedAllKeeps(t, step.seeds); }
    } else {
      IssueKeeps(backend, t, step.hardware, step.details, step.id);
    }
  }

  ghost predicate IsRun(backend: Backend, tables: seq<Table>, steps: seq<Step>) {
    && |tables| == |steps| + 1 && tables[0] == map[]
    && forall i :: 0 <= i < |steps| ==> StepsAt(backend, tables, steps, i)
  }

  ghost predicate StepsAt(backend: Backend, tables: seq<Table>, steps: seq<Step>, i: nat) {
    i < |steps| && i + 1 < |tables| && Steps(backend, tables[i], tables[i + 1], steps[i])
  }

  lemma RunStep(backend: Backend, tables: seq<Table>, steps: seq<Step>, i: nat)
    requires IsRun(backend, tables, steps) && i < |steps|
    ensures Steps(backend, tables[i], tables[i + 1], steps[i])
  {
    assert StepsAt(backend, tables, steps, i);
  }

  lemma KeepsTransitive(t: Table, u: Table, v: Table)
    requires KeepsDevices(t, u) && KeepsDevices(u, v)
    ensures KeepsDevices(t, v)
  {}

  /** Hardware to device is one to one in every reachable table. */
  lemma {:induction false} RunUnique(backend: Backend, tables: seq<Table>, steps: seq<Step>, i: nat)
    requires IsRun(backend, tables, steps) && i < |tables|
    ensures UniqueHardware(tables[i])
  {
    if i > 0 {
      RunUnique(backend, tables, steps, i - 1);
      RunStep(backend, tables, steps, i - 1);
      StepKeeps(backend, tables[i - 1], tables[i], steps[i - 1]);
    }
  }

  lemma RunStepKeeps(backend: Backend, tables: seq<Table>, steps: seq<Step>, i: nat)
    requires IsRun(backend, tables, steps) && i < |steps|
    ensures KeepsDevices(tables[i], tables[i + 1])
  {
    RunUnique(backend, tables, steps, i);
    RunStep(backend, tables, steps, i);
    StepKeeps(backend, tables[i], tables[i + 1], steps[i]);
  }

  lemma {:induction false} RunKeeps(backend: Backend, tables: seq<Table>, steps: seq<Step>, i: nat, j: nat)
    requires IsRun(backend, tables, steps) && i <= j < |tables|
    ensures KeepsDevices(tables[i], tables[j])
  {
    if i < j {
      RunKeeps(backend, tables, steps, i, j - 1);
      RunStepKeeps(backend, tables, steps, j - 1);
      KeepsTransitive(tables[i], tables[j - 1], tables[j]);
    }
  }

  /** Issuing again, however much later, gives a known hardware id the device id it has. */
  lemma ReissueKeepsId(backend: Backend, tables: seq<Table>, steps: seq<Step>, i: nat, j: nat)
    requires IsRun(backend, tables, steps) && i < j < |steps|
    requires steps[i].Issuing? && steps[j].Issuing? && steps[i].hardware == steps[j].hardware
    ensures steps[i].id == steps[j].id
  {
    var hardware := steps[i].hardware;
    Issued(backend, tables, steps, i);
    Issued(backend, tables, steps, j);
    HeldLater(backend, tables, steps, i + 1, j, steps[i].id, hardware);
    RunUnique(backend, tables, steps, j);
    SameHardware(backend, tables[j], hardware, steps[i].id, steps[j].id);
  }

  /** An issuing step assigns its id, which then holds the hardware. */
  lemma Issued(backend: Backend, tables: seq<Table>, steps: seq<Step>, i: nat)
    requires IsRun(backend, tables, steps) && i < |steps| && steps[i].Issuing?
    ensures Assigns(backend, tables[i], steps[i].hardware, steps[i].id)
    ensures Holds(tables[i + 1], steps[i].id, steps[i].hardware)
  {
    RunStep(backend, tables, steps, i);
  }

  lemma HeldLater(backend: Backend, tables: seq<Table>, steps: seq<Step>, i: nat, j: nat, id: string, hardware: string)
    requires IsRun(backend, tables, steps) && i <= j < |tables| && Holds(tables[i], id, hardware)
    ensures Holds(tables[j], id, hardware)
  {
    RunKeeps(backend, tables, steps, i, j);
  }

  lemma SameHardware(backend: Backend, t: Table, hardware: string, id1: string, id2: string)
    requires UniqueHardware(t) && Holds(t, id1, hardware) && Assigns(backend, t, hardware, id2)
    ensures id1 == id2
  {
    assert Known(t, hardware);
  }

  /** A hardware id that was issued a device id has it at any later time. */
  lemma {:induction false} IssuedHeld(backend: Backend, tables: seq<Table>, steps: seq<Step>, i: nat, j: nat)
    requires IsRun(backend, tables, steps) && i < j < |tables| && steps[i].Issuing?
    ensures Holds(tables[j], steps[i].id, steps[i].hardware)
  {
    Issued(backend, tables, steps, i);
    HeldLater(backend, tables, steps, i + 1, j, steps[i].id, steps[i].hardware);
  }

  /** Two hardware ids never get the same device id, however far apart they are issued. */
  lemma {:induction false} IssuedIdsDiffer(backend: Backend, tables: seq<Table>, steps: seq<Step>, i: nat, j: nat)
    requires IsRun(backend, tables, steps) && i < j < |steps|
    requires steps[i].Issuing? && steps[j].Issuing? && steps[i].hardware != steps[j].hardware
    ensures steps[i].id != steps[j].id
  {
    IssuedHeld(backend, tables, steps, i, j);
    Issued(backend, tables, steps, j);
    OtherHardware(backend, tables[j], steps[i].hardware, steps[i].id, steps[j].hardware, steps[j].id);
  }

  lemma OtherHardware(backend: Backend, t: Table, h1: string, id1: string, h2: string, id2: string)
    requires Holds(t, id1, h1) && Assigns(backend, t, h2, id2) && h1 != h2
    ensures id1 != id2
  {
    NeverCollides(backend, t, h2);
  }

  // -------------------------------------------------------------------------- prefixes

  lemma {:induction false} BeforeDashOf(p: string, rest: string)
    requires forall i :: 0 <= i < |p| ==> p[i] != '-'
    ensures BeforeDash(p + "-" + rest) == p
  {
    var s := p + "-" + rest;
    if p != [] {
      BeforeDashOf(p[1..], rest);
      assert s[1..] == p[1..] + "-" + rest;
    }
  }

  lemma {:induction false} PlainOfPlain(p: string)
    requires forall i :: 0 <= i < |p| ==> IsPlain(p[i])
    ensures Plain(Lower(p)) == p
  {
    assert Lower(p) == p;
    if p != [] {
      var front := p[..|p| - 1];
      PlainOfPlain(front);
      assert Lower(front) == front;
    }
  }

  /** A hardware id that starts with lower-case letters and digits keeps them as its prefix;
      so does a generated id. */
  lemma PrefixKept(p: string, rest: string)
    requires p != [] && forall i :: 0 <= i < |p| ==> IsPlain(p[i])
    ensures Prefix(p + "-" + rest) == p
  {
    BeforeDashOf(p, rest);
    PlainOfPlain(p);
  }

  lemma {:induction false} BeforeDashLower(s: string)
    ensures BeforeDash(Lower(s)) == Lower(BeforeDash(s))
  {
    if s != [] && s[0] != '-' {
      BeforeDashLower(s[1..]);
      assert Lower(s)[1..] == Lower(s[1..]);
      assert Lower(BeforeDash(s)) == [LowerChar(s[0])] + Lower(BeforeDash(s[1..]));
    }
  }

  /** Case does not matter. */
  lemma PrefixIgnoresCase(hardware: string)
    ensures Prefix(Lower(hardware)) == Prefix(hardware)
  {
    BeforeDashLower(hardware);
    LowerTwice(BeforeDash(hardware));
  }

  lemma LowerTwice(s: string)
    ensures Lower(Lower(s)) == Lower(s)
  {
    var r := Lower(s);
    var rr := Lower(r);
    assert forall i :: 0 <= i < |s| ==> rr[i] == r[i];
  }
}
