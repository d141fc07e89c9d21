/**
  The client-side id generator shared by the experiment and sample screens: strip the
  prefix from every existing id, `parseInt` what is left, drop NaN, take the maximum (or a
  default when nothing parsed) and render prefix + (max + 1).
 */
module ClientIds {
  import opened Wrappers
  import opened JsText
  import opened Lists

  /** `parseInt(id.replace(prefix, ''))`. */
  function SuffixNumber(id: string, prefix: string): Option<int> {
    ParseInt(RemoveFirst(id, prefix))
  }

  /** `ids.map((id) => parseInt(id.replace(prefix, '')))`, NaN being None. */
  function ParsedSuffixes(ids: seq<string>, prefix: string): (os: seq<Option<int>>)
    ensures |os| == |ids|
  {
    seq(|ids|, i requires 0 <= i < |ids| => SuffixNumber(ids[i], prefix))
  }

  /** `.filter((n) => !isNaN(n))`: the numbers that parsed, in order. */
  function Present(os: seq<Option<int>>): (nums: seq<int>)
    ensures forall x :: x in nums <==> Some(x) in os
  {
    if os == [] then []
    else
      var rest := Present(os[1..]);
      assert forall o :: o in os <==> o == os[0] || o in os[1..];
      match os[0]
      case None => rest
      case Some(n) => [n] + rest
  }

  /** `(nums.length ? Math.max(...nums) : dflt) + 1` over the numbers that parsed: above
      every parsed number, one past one of them when any parsed, dflt + 1 otherwise. */
  function NextAfter(os: seq<Option<int>>, dflt: int): (n: int)
    ensures forall i :: 0 <= i < |os| && os[i].Some? ==> os[i].value < n
    ensures (forall i :: 0 <= i < |os| ==> os[i].None?) ==> n == dflt + 1
    ensures (exists i :: 0 <= i < |os| && os[i].Some?) ==>
              exists i :: 0 <= i < |os| && os[i] == Some(n - 1)
  {
    var nums := Present(os);
    var m := MaxOr(nums, dflt);
    assert forall i :: 0 <= i < |os| && os[i].Some? ==> os[i].value in nums by {
      forall i | 0 <= i < |os| && os[i].Some? ensures os[i].value in nums {
        assert Some(os[i].value) in os;
      }
    }
    assert nums != [] ==> Some(m) in os;
    assert nums == [] ==> forall i :: 0 <= i < |os| ==> os[i].None?;
    m + 1
  }

  /** `${prefix}${max + 1}`: never equal to an id already in the list. */
  function NextSequentialId(ids: seq<string>, prefix: string, dflt: int): (r: string)
    ensures r !in ids
    ensures r == prefix + IntToString(NextAfter(ParsedSuffixes(ids, prefix), dflt))
  {
    var os := ParsedSuffixes(ids, prefix);
    var n := NextAfter(os, dflt);
    var r := prefix + IntToString(n);
    assert SuffixNumber(r, prefix) == Some(n) by {
      assert prefix <= r;
      assert RemoveFirst(r, prefix) == IntToString(n);
      ParseIntOfIntToString(n);
    }
    forall j | 0 <= j < |ids| ensures ids[j] != r {
      assert os[j] == SuffixNumber(ids[j], prefix);
    }
    r
  }

  /** When no suffix parses, the number is the default plus one. */
  lemma NextAfterDefault(ids: seq<string>, prefix: string, dflt: int)
    requires forall i :: 0 <= i < |ids| ==> SuffixNumber(ids[i], prefix).None?
    ensures NextAfter(ParsedSuffixes(ids, prefix), dflt) == dflt + 1
  {
    var os := ParsedSuffixes(ids, prefix);
    forall i | 0 <= i < |os| ensures os[i].None? {
      assert os[i] == SuffixNumber(ids[i], prefix);
    }
  }

  /** With a single parsed number the next one is its successor, whatever the default:
      the default is no lower bound. */
  lemma NextAfterSingle(k: int, dflt: int)
    ensures NextAfter([Some(k)], dflt) == k + 1
  {
    var os := [Some(k)];
    var n := NextAfter(os, dflt);
    assert os[0].value < n;
    var i :| 0 <= i < |os| && os[i] == Some(n - 1);
  }

  // ---------------------------------------------------------------------------
  // The generator as written, in double arithmetic
  // ---------------------------------------------------------------------------

  /** Every suffix that parses, and the default, lie in the range where doubles hold every
      integer, so `parseInt` is exact and only `max + 1` can round. */
  predicate InDoubleRange(ids: seq<string>, prefix: string, dflt: int) {
    && -TwoTo53 <= dflt <= TwoTo53
    && forall i :: 0 <= i < |ids| && SuffixNumber(ids[i], prefix).Some? ==>
         -TwoTo53 <= SuffixNumber(ids[i], prefix).value <= TwoTo53
  }

  /** `(nums.length ? Math.max(...nums) : dflt) + 1` in double arithmetic: never below a
      parsed number and never beyond 2^53. At 2^53 the sum 2^53 + 1 lies halfway between
      the doubles 2^53 and 2^53 + 2, and rounding to even gives 2^53 back. */
  function NextAfterAsWritten(os: seq<Option<int>>, dflt: int): (n: int)
    requires -TwoTo53 <= dflt <= TwoTo53
    requires forall i :: 0 <= i < |os| && os[i].Some? ==> -TwoTo53 <= os[i].value <= TwoTo53
    ensures forall i :: 0 <= i < |os| && os[i].Some? ==> os[i].value <= n
    ensures n <= TwoTo53
  {
    var m := MaxOr(Present(os), dflt);
    assert forall i :: 0 <= i < |os| && os[i].Some? ==> os[i].value <= m by {
      forall i | 0 <= i < |os| && os[i].Some? ensures os[i].value <= m {
        assert Some(os[i].value) in os;
      }
    }
    assert m == dflt || Some(m) in os;
    if m == TwoTo53 then m else m + 1
  }

  /** `${prefix}${max + 1}` as the source computes it, with doubles. */
  function NextSequentialIdAsWritten(ids: seq<string>, prefix: string, dflt: int): (r: string)
    requires InDoubleRange(ids, prefix, dflt)
    ensures prefix <= r
  {
    var os := ParsedSuffixes(ids, prefix);
    assert forall i :: 0 <= i < |os| ==> os[i] == SuffixNumber(ids[i], prefix);
    prefix + IntToString(NextAfterAsWritten(os, dflt))
  }

  /** The collision: the list holding only `prefix + String(2^53)` gets that same id back,
      so the list `["EXP-9007199254740992"]` yields "EXP-9007199254740992". */
  lemma AsWrittenCollides(prefix: string, dflt: int)
    requires -TwoTo53 <= dflt <= TwoTo53
    ensures InDoubleRange([prefix + IntToString(TwoTo53)], prefix, dflt)
    ensures NextSequentialIdAsWritten([prefix + IntToString(TwoTo53)], prefix, dflt)
              == prefix + IntToString(TwoTo53)
  {
    var id := prefix + IntToString(TwoTo53);
    assert prefix <= id;
    assert RemoveFirst(id, prefix) == IntToString(TwoTo53);
    ParseIntOfIntToString(TwoTo53);
    assert SuffixNumber(id, prefix) == Some(TwoTo53);
    var os := ParsedSuffixes([id], prefix);
    assert os == [Some(TwoTo53)];
    assert os[1..] == [];
    assert Present(os) == [TwoTo53];
    assert MaxOr([TwoTo53], dflt) == TwoTo53;
  }

  lemma AsWrittenAgreesBelow2To53(ids: seq<string>, prefix: string, dflt: int)
    requires -TwoTo53 <= dflt < TwoTo53
    requires forall i :: 0 <= i < |ids| && SuffixNumber(ids[i], prefix).Some? ==>
               -TwoTo53 <= SuffixNumber(ids[i], prefix).value < TwoTo53
    ensures InDoubleRange(ids, prefix, dflt)
    ensures NextSequentialIdAsWritten(ids, prefix, dflt) == NextSequentialId(ids, prefix, dflt)
  {
    var os := ParsedSuffixes(ids, prefix);
    assert forall i :: 0 <= i < |os| ==> os[i] == SuffixNumber(ids[i], prefix);
    var m := MaxOr(Present(os), dflt);
    assert m == dflt || Some(m) in os;
    assert m < TwoTo53;
    assert NextAfterAsWritten(os, dflt) == m + 1;
    assert NextAfter(os, dflt) == m + 1;
  }
}
