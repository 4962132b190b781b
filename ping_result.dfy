/** `PingResult` (MyInternetChecker/PingResult.cs): the outcome of one probe
    and its description for the user. */
module PingResult {
  import opened Wrappers
  import opened Text

  /** The record: whether the host answered, the round-trip time in ms and
      the host probed (`null` when not given). */
  datatype PingResult = PingResult(isSuccess: bool, roundtripTime: int64, hostName: Option<string>)

  const Unavailable: string := "Недоступен"

  /** The quality labels, best first. */
  const Labels: seq<string> := ["Отлично", "Хорошо", "Нормально", "Медленно", "Очень медленно"]

  /** The round-trip times, in ms, at which each next label starts. */
  const Thresholds: seq<int> := [50, 100, 200, 500]

  /** `GetQualityDescription`: "unavailable" without an answer, otherwise the
      band of the round-trip time. */
  function GetQualityDescription(r: PingResult): (q: string)
    ensures q == Unavailable || q in Labels
    ensures q == Unavailable <==> !r.isSuccess
  {
    if !r.isSuccess then Unavailable
    else if r.roundtripTime < 50 then "Отлично"
    else if r.roundtripTime < 100 then "Хорошо"
    else if r.roundtripTime < 200 then "Нормально"
    else if r.roundtripTime < 500 then "Медленно"
    else "Очень медленно"
  }

  /** `ToString`: "{time} мс ({quality})" for an answer, else "unavailable". */
  function ToString(r: PingResult): (t: string)
    ensures !r.isSuccess ==> t == Unavailable
    ensures r.isSuccess ==> IntToString(r.roundtripTime) <= t && GetQualityDescription(r) != Unavailable
  {
    if r.isSuccess then IntToString(r.roundtripTime) + Described(GetQualityDescription(r))
    else Unavailable
  }

  /** The text after the time: " мс ({quality})". */
  function Described(quality: string): (t: string)
    ensures t != [] && t[0] == ' '
  {
    " мс (" + quality + ")"
  }

  // ---------------------------------------------------------------------------
  // Properties
  // ---------------------------------------------------------------------------

  /** How many of `thresholds` a time has reached. */
  function Reached(thresholds: seq<int>, time: int): (n: nat)
    ensures n <= |thresholds|
  {
    if thresholds == [] then 0
    else Reached(thresholds[..|thresholds| - 1], time) + (if thresholds[|thresholds| - 1] <= time then 1 else 0)
  }

  /** The description of an answer is the label of its band: the label whose
      index is the number of thresholds the round-trip time has reached. */
  lemma QualityIsBand(r: PingResult)
    requires r.isSuccess
    ensures GetQualityDescription(r) == Labels[Reached(Thresholds, r.roundtripTime)]
  {
    var t := r.roundtripTime;
    assert [50][..0] == [];
    assert Reached([50], t) == (if 50 <= t then 1 else 0);
    assert [50, 100][..1] == [50];
    assert Reached([50, 100], t) == Reached([50], t) + (if 100 <= t then 1 else 0);
    assert [50, 100, 200][..2] == [50, 100];
    assert Reached([50, 100, 200], t) == Reached([50, 100], t) + (if 200 <= t then 1 else 0);
    assert Thresholds[..3] == [50, 100, 200];
  }

  /** A slower answer never gets a better label. */
  lemma {:induction false} ReachedMonotone(thresholds: seq<int>, a: int, b: int)
    requires a <= b
    ensures Reached(thresholds, a) <= Reached(thresholds, b)
  {
    if thresholds != [] {
      ReachedMonotone(thresholds[..|thresholds| - 1], a, b);
    }
  }

  /** The labels are distinct, so the description determines the band. */
  lemma LabelsDistinct()
    ensures forall i, j :: 0 <= i < j < |Labels| ==> Labels[i] != Labels[j]
    ensures Unavailable !in Labels
  {
    assert Labels[0][0] == 'О' && Labels[1][0] == 'Х' && Labels[2][0] == 'Н' && Labels[3][0] == 'М';
    assert Labels[4][0] == 'О' && Labels[4][1] == 'ч' && Labels[0][1] == 'т';
    assert Unavailable[1] == 'е' && Labels[2][1] == 'о';
  }

  /** An answer's `ToString` begins with its time in digits: it never reads
      "unavailable", and it gives the time back. */
  lemma ToStringUnavailableIff(r: PingResult)
    ensures ToString(r) == Unavailable <==> !r.isSuccess
  {
    if r.isSuccess {
      var s := ToString(r);
      var n := IntToString(r.roundtripTime);
      assert s[0] == n[0];
      assert n[0] == '-' || IsDigit(n[0]);
      assert Unavailable[0] == 'Н';
    }
  }

  /** No space occurs in a printed integer. */
  lemma NoSpaceInNumber(n: int)
    ensures ' ' !in IntToString(n)
  {
    var s := IntToString(n);
    if n < 0 {
      forall i | 1 <= i < |s| ensures s[i] != ' ' {
        assert s[1..][i - 1] == s[i];
      }
    }
  }

  /** The first space of a space-free prefix followed by a space is where
      the prefix ends. */
  lemma FirstSpaceAfter(n: string, rest: string)
    requires ' ' !in n && rest != [] && rest[0] == ' '
    ensures IndexOf(n + rest, ' ') == |n|
  {
    var s := n + rest;
    assert s[|n|] in {' '};
    forall j | 0 <= j < |n| ensures s[j] !in {' '} {
      assert s[j] == n[j];
    }
  }

  /** A space-free prefix ending where a space follows is determined by the
      whole string. */
  lemma PrefixBeforeSpace(na: string, ra: string, nb: string, rb: string)
    requires ' ' !in na && ' ' !in nb
    requires ra != [] && ra[0] == ' ' && rb != [] && rb[0] == ' '
    requires na + ra == nb + rb
    ensures na == nb
  {
    FirstSpaceAfter(na, ra);
    FirstSpaceAfter(nb, rb);
    assert na == (na + ra)[..|na|];
    assert nb == (nb + rb)[..|nb|];
  }

  /** Two answers printed alike have the same round-trip time. */
  lemma ToStringGivesTime(a: PingResult, b: PingResult)
    requires a.isSuccess && b.isSuccess && ToString(a) == ToString(b)
    ensures a.roundtripTime == b.roundtripTime
  {
    var ra := Described(GetQualityDescription(a));
    var rb := Described(GetQualityDescription(b));
    NoSpaceInNumber(a.roundtripTime);
    NoSpaceInNumber(b.roundtripTime);
    PrefixBeforeSpace(IntToString(a.roundtripTime), ra, IntToString(b.roundtripTime), rb);
    IntToStringInjective(a.roundtripTime, b.roundtripTime);
  }
}
