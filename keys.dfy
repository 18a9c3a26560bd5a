/** The cache keys the handlers and the stats reader build, and the decimal
    rendering of a number inside a template literal. */
module Keys {
  import opened Common

  predicate IsDigits(s: string) {
    forall i :: 0 <= i < |s| ==> '0' <= s[i] <= '9'
  }

  function DigitChar(d: nat): char
    requires d < 10
  {
    (d + '0' as int) as char
  }

  /** `${n}` for a non-negative integer: its decimal digits, no sign, no
      leading zeros. */
  function Decimal(n: nat): (s: string)
    ensures |s| >= 1 && IsDigits(s)
    ensures n < 10 <==> |s| == 1
    decreases n
  {
    if n < 10 then [DigitChar(n)] else Decimal(n / 10) + [DigitChar(n % 10)]
  }

  /** The value of a string of decimal digits. */
  function ParseDecimal(s: string): nat
    requires IsDigits(s)
    decreases |s|
  {
    if s == [] then 0 else ParseDecimal(s[..|s| - 1]) * 10 + (s[|s| - 1] as int - '0' as int)
  }

  /** Reading back a rendered number gives the number. */
  lemma {:induction false} DecimalRoundTrip(n: nat)
    ensures ParseDecimal(Decimal(n)) == n
    decreases n
  {
    var s := Decimal(n);
    if n >= 10 {
      DecimalRoundTrip(n / 10);
      assert s[..|s| - 1] == Decimal(n / 10);
    }
  }

  /** `tag_${uid}`: where GET /tags/:uid caches a tag. */
  function TagKey(uid: string): string {
    "tag_" + uid
  }

  /** `stats:uid:${uid}`: where the stats reader caches one tag's stats. */
  function StatsUidKey(uid: string): string {
    "stats:uid:" + uid
  }

  /** `${startAfter || 'init'}` */
  function CursorSegment(startAfter: Cursor): string {
    if startAfter.Given() then startAfter.text else "init"
  }

  /** `stats:list:${limit}:${startAfter || 'init'}`: where the stats reader
      caches a listing page. */
  function StatsListKey(limit: nat, startAfter: Cursor): string {
    "stats:list:" + Decimal(limit) + ":" + CursorSegment(startAfter)
  }

  lemma DropPrefix(p: string, a: string, b: string)
    requires p + a == p + b
    ensures a == b
  {
    assert a == (p + a)[|p|..];
    assert b == (p + b)[|p|..];
  }

  /** In a digit string followed by ':', that ':' is the first one. */
  lemma FirstColon(d: string, t: string)
    requires IsDigits(d)
    ensures (d + ":" + t)[|d|] == ':'
    ensures forall i :: 0 <= i < |d| ==> (d + ":" + t)[i] != ':'
  {
  }

  /** A digit string followed by ':' splits uniquely. */
  lemma SplitAtColon(d1: string, t1: string, d2: string, t2: string)
    requires IsDigits(d1) && IsDigits(d2)
    requires d1 + ":" + t1 == d2 + ":" + t2
    ensures d1 == d2 && t1 == t2
  {
    var s := d1 + ":" + t1;
    FirstColon(d1, t1);
    FirstColon(d2, t2);
    assert |d1| == |d2|;
    assert d1 == s[..|d1|] == d2;
    assert t1 == s[|d1| + 1..] == t2;
  }

  /** Two listing keys are equal only for the same limit and the same cursor
      segment: the limit cannot run into the cursor text. */
  lemma StatsListKeyInjective(l1: nat, c1: Cursor, l2: nat, c2: Cursor)
    requires StatsListKey(l1, c1) == StatsListKey(l2, c2)
    ensures l1 == l2 && CursorSegment(c1) == CursorSegment(c2)
  {
    var p := "stats:list:";
    assert StatsListKey(l1, c1) == p + (Decimal(l1) + ":" + CursorSegment(c1));
    assert StatsListKey(l2, c2) == p + (Decimal(l2) + ":" + CursorSegment(c2));
    DropPrefix(p, Decimal(l1) + ":" + CursorSegment(c1), Decimal(l2) + ":" + CursorSegment(c2));
    SplitAtColon(Decimal(l1), CursorSegment(c1), Decimal(l2), CursorSegment(c2));
    DecimalRoundTrip(l1);
    DecimalRoundTrip(l2);
  }

  /** The two stats namespaces never meet: a per-tag key is never a listing
      key, whatever the uid. */
  lemma StatsKeysDisjoint(uid: string, limit: nat, startAfter: Cursor)
    ensures StatsUidKey(uid) != StatsListKey(limit, startAfter)
  {
    assert StatsUidKey(uid)[6] == 'u';
    assert StatsListKey(limit, startAfter)[6] == 'l';
  }
}
