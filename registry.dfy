/**
 * The resident registry: one record per `add_resident_info` call. Vacation days that are
 * no-fill days are stripped from the caller's list when the resident is registered.
 */
module Registry {
  import opened Wrappers
  import opened Lists

  /** A `residents_info` entry; `daysOverride` is `None` where the source passes `None`. */
  datatype Resident = Resident(
    name: string,
    vacation: seq<int>,
    onTrauma: bool,
    onEmergency: bool,
    daysOverride: Option<int>,
    claimed: seq<(int, string)>)

  /** `try: vacation.remove(day) except: pass`. */
  function RemoveIfPresent(vacation: seq<int>, day: int): seq<int>
  {
    match RemoveFirst(vacation, day)
    case None => vacation
    case Some(rest) => rest
  }

  /** The vacation list after the loop over the no-fill days, processed in order. */
  function StripNofill(vacation: seq<int>, nofill: seq<int>): seq<int>
  {
    if |nofill| == 0 then vacation
    else RemoveIfPresent(StripNofill(vacation, nofill[..|nofill| - 1]), Last(nofill))
  }

  /**
   * Each no-fill entry removes one matching vacation entry if one is left: a day listed
   * `k` times as vacation and `j` times as no-fill remains `max(0, k - j)` times.
   */
  lemma {:induction false} StripNofillCounts(vacation: seq<int>, nofill: seq<int>)
    ensures multiset(StripNofill(vacation, nofill)) == multiset(vacation) - multiset(nofill)
    decreases |nofill|
  {
    if |nofill| > 0 {
      var front := nofill[..|nofill| - 1];
      var day := Last(nofill);
      assert nofill == front + [day];
      StripNofillCounts(vacation, front);
      var before := StripNofill(vacation, front);
      assert multiset(nofill) == multiset(front) + multiset{day};
      if day in before {
        assert multiset(RemoveIfPresent(before, day)) == multiset(before) - multiset{day};
      } else {
        assert multiset(before)[day] == 0;
        assert (multiset(vacation) - multiset(front))[day] == 0;
      }
    }
  }

  /** No-fill days absent from the vacation list are skipped silently: it comes back unchanged. */
  lemma {:induction false} StripNofillDisjoint(vacation: seq<int>, nofill: seq<int>)
    requires forall i :: 0 <= i < |nofill| ==> nofill[i] !in vacation
    ensures StripNofill(vacation, nofill) == vacation
    decreases |nofill|
  {
    if |nofill| > 0 {
      StripNofillDisjoint(vacation, nofill[..|nofill| - 1]);
    }
  }

  /** After stripping, no vacation entry is a no-fill day unless it was listed more often. */
  lemma StripNofillRemovesSingles(vacation: seq<int>, nofill: seq<int>, day: int)
    requires day in nofill
    requires multiset(vacation)[day] <= multiset(nofill)[day]
    ensures day !in StripNofill(vacation, nofill)
  {
    StripNofillCounts(vacation, nofill);
    assert multiset(StripNofill(vacation, nofill))[day] == 0;
  }
}
