/**
 * The zone key of `classifyBPI`: a dictionary from the decimal text of a
 * class id to its zone name, seeded with `'0' -> 'None'`, and the lookup the
 * attribute-table cursor makes for every distinct cell value.
 */
module ZoneKey {
  import opened Wrappers

  /** One row of the classification table, as far as the key is concerned. */
  datatype Entry = Entry(classId: int, zone: string)

  const NoMatch: string := "No Matching Zone"

  function DigitChar(d: int): (c: char)
    requires 0 <= d < 10
    ensures '0' <= c <= '9'
    ensures (c as int) - ('0' as int) == d
  {
    ((('0' as int) + d) as char)
  }

  /** Python's `str` of a non-negative integer: its decimal digits. */
  function NatStr(n: nat): (s: string)
    ensures 1 <= |s| && (n >= 10 ==> 2 <= |s|)
    ensures forall i :: 0 <= i < |s| ==> '0' <= s[i] <= '9'
    ensures (s[0] == '0') ==> n == 0
    decreases n
  {
    if n < 10 then [DigitChar(n)] else NatStr(n / 10) + [DigitChar(n % 10)]
  }

  /** Python's `str` of an integer: a minus sign before a negative one. */
  function Str(n: int): (s: string)
    ensures 1 <= |s|
    ensures n < 0 <==> s[0] == '-'
  {
    if n < 0 then "-" + NatStr(-n) else NatStr(n)
  }

  lemma {:induction false} NatStrInjective(a: nat, b: nat)
    requires NatStr(a) == NatStr(b)
    ensures a == b
    decreases a
  {
    if a >= 10 && b >= 10 {
      var sa, sb := NatStr(a), NatStr(b);
      assert sa[..|sa| - 1] == NatStr(a / 10);
      assert sb[..|sb| - 1] == NatStr(b / 10);
      NatStrInjective(a / 10, b / 10);
      assert DigitChar(a % 10) == sa[|sa| - 1] == sb[|sb| - 1] == DigitChar(b % 10);
    }
  }

  /** Distinct class ids never share a dictionary key. */
  lemma StrInjective(a: int, b: int)
    requires Str(a) == Str(b)
    ensures a == b
  {
    if a < 0 {
      assert Str(a)[1..] == NatStr(-a);
      assert Str(b)[1..] == NatStr(-b);
      NatStrInjective(-a, -b);
    } else {
      NatStrInjective(a, b);
    }
  }

  /** The key after registering every entry in table order (`key[cur_class] = cur_name`). */
  function KeyOf(entries: seq<Entry>): (key: map<string, string>)
    ensures "0" in key
  {
    if |entries| == 0 then map["0" := "None"]
    else
      var last := entries[|entries| - 1];
      KeyOf(entries[..|entries| - 1])[Str(last.classId) := last.zone]
  }

  /** The zone a cursor row with cell value `v` receives from `key`. */
  function Lookup(key: map<string, string>, v: int): string {
    if Str(v) in key then key[Str(v)] else NoMatch
  }

  /** The zone name of the last entry with class id `v`, if any. */
  function LastZone(entries: seq<Entry>, v: int): (z: Option<string>)
    ensures z.None? <==> forall k :: 0 <= k < |entries| ==> entries[k].classId != v
  {
    if |entries| == 0 then None
    else if entries[|entries| - 1].classId == v then Some(entries[|entries| - 1].zone)
    else LastZone(entries[..|entries| - 1], v)
  }

  /** Reference labelling: the last zone registered for `v`; otherwise "None"
      for the unclassified value 0 and "No Matching Zone" for anything else. */
  function Label(entries: seq<Entry>, v: int): string {
    match LastZone(entries, v)
    case Some(z) => z
    case None => if v == 0 then "None" else NoMatch
  }

  /** A repeated class id keeps the zone name of its last occurrence. */
  lemma {:induction false} LastOccurrenceWins(entries: seq<Entry>, k: nat)
    requires k < |entries|
    requires forall m :: k < m < |entries| ==> entries[m].classId != entries[k].classId
    ensures LastZone(entries, entries[k].classId) == Some(entries[k].zone)
  {
    if k < |entries| - 1 {
      var init := entries[..|entries| - 1];
      assert init[k] == entries[k];
      LastOccurrenceWins(init, k);
    }
  }

  /** Looking a cell value up in the key built from the table gives the reference label. */
  lemma {:induction false} LookupIsLabel(entries: seq<Entry>, v: int)
    ensures Lookup(KeyOf(entries), v) == Label(entries, v)
  {
    if |entries| == 0 {
      if Str(v) == "0" {
        assert Str(v) == Str(0);
        StrInjective(v, 0);
      }
    } else {
      var init := entries[..|entries| - 1];
      var last := entries[|entries| - 1];
      if Str(last.classId) == Str(v) {
        StrInjective(last.classId, v);
      } else {
        LookupIsLabel(init, v);
      }
    }
  }
}
