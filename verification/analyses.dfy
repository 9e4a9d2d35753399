/** The list of saved analyses, most recent first. The key-value store that
    holds it for `saveAnalysis` and `deleteAnalysis` is replaced by the list itself: saving takes the
    current list and returns the next one, and so does deleting. The id and the
    timestamp, which `saveAnalysis` reads from the clock, are parameters. */
module Analyses {
  import opened Components
  import opened Reliability

  /** A saved snapshot of the calculator's inputs and headline results. */
  datatype Analysis = Analysis(
    id: int,
    systemName: string,
    missionTime: real,
    environmentFactor: real,
    environmentLabel: string,
    components: seq<Component>,
    totalFailureRate: real,
    systemReliability: real,
    mtbf: Option<real>,
    timestamp: string)

  /** The snapshot `saveAnalysis` records for the current state
      (useReliabilityCalc.js:94-105). */
  function Snapshot(st: Calculator, id: int, timestamp: string): Analysis {
    Analysis(
      id,
      st.systemName,
      st.missionTime,
      st.environmentFactor,
      EnvironmentLabel(st.environmentFactor),
      st.components,
      st.results.totalFailureRate,
      st.results.systemReliability,
      st.results.mtbf,
      timestamp)
  }

  /** `saveAnalysis`: refuses (false, list unchanged) when there is no result
      yet; otherwise puts the snapshot in front of the saved list. */
  function SaveAnalysis(st: Calculator, saved: seq<Analysis>, id: int, timestamp: string): (r: (bool, seq<Analysis>))
    ensures r.0 <==> st.results.hasResults
    ensures !r.0 ==> r.1 == saved
    ensures r.0 ==> |r.1| == |saved| + 1 && r.1[1..] == saved
    ensures r.0 ==> r.1[0].id == id && r.1[0].timestamp == timestamp
                    && r.1[0].systemName == st.systemName
                    && r.1[0].missionTime == st.missionTime
                    && r.1[0].environmentFactor == st.environmentFactor
                    && r.1[0].environmentLabel == EnvironmentLabel(st.environmentFactor)
                    && r.1[0].components == st.components
                    && r.1[0].totalFailureRate == st.results.totalFailureRate
                    && r.1[0].systemReliability == st.results.systemReliability
                    && r.1[0].mtbf == st.results.mtbf
  {
    if !st.results.hasResults then (false, saved)
    else (true, [Snapshot(st, id, timestamp)] + saved)
  }

  /** `deleteAnalysis`: keeps the entries whose id differs, in order. */
  function DeleteAnalysis(saved: seq<Analysis>, id: int): (r: seq<Analysis>)
    ensures forall a :: a in r <==> a in saved && a.id != id
    ensures |r| <= |saved|
    ensures (forall i :: 0 <= i < |saved| ==> saved[i].id != id) ==> r == saved
    decreases |saved|
  {
    if saved == [] then []
    else if saved[0].id != id then [saved[0]] + DeleteAnalysis(saved[1..], id)
    else DeleteAnalysis(saved[1..], id)
  }

  /** Deleting from a concatenation deletes from each part: the survivors keep
      their original relative order. */
  lemma {:induction false} DeleteAppend(a: seq<Analysis>, b: seq<Analysis>, id: int)
    ensures DeleteAnalysis(a + b, id) == DeleteAnalysis(a, id) + DeleteAnalysis(b, id)
    decreases |a|
  {
    if a == [] {
      assert a + b == b;
    } else {
      assert (a + b)[0] == a[0];
      assert (a + b)[1..] == a[1..] + b;
      DeleteAppend(a[1..], b, id);
    }
  }

  /** Deleting the same id twice is the same as deleting it once. */
  lemma DeleteIdempotent(saved: seq<Analysis>, id: int)
    ensures DeleteAnalysis(DeleteAnalysis(saved, id), id) == DeleteAnalysis(saved, id)
  {
    var r := DeleteAnalysis(saved, id);
    assert forall i :: 0 <= i < |r| ==> r[i] in r;
  }

  /** Deletions of two ids can be done in either order. */
  lemma {:induction false} DeleteCommutes(saved: seq<Analysis>, id1: int, id2: int)
    ensures DeleteAnalysis(DeleteAnalysis(saved, id1), id2) == DeleteAnalysis(DeleteAnalysis(saved, id2), id1)
    decreases |saved|
  {
    if saved != [] {
      DeleteCommutes(saved[1..], id1, id2);
    }
  }

  /** Deleting an analysis just saved under an id no older entry uses gives
      back the list as it was before the save. */
  lemma DeleteUndoesSave(st: Calculator, saved: seq<Analysis>, id: int, timestamp: string)
    requires st.results.hasResults
    requires forall i :: 0 <= i < |saved| ==> saved[i].id != id
    ensures DeleteAnalysis(SaveAnalysis(st, saved, id, timestamp).1, id) == saved
  {
    var s := SaveAnalysis(st, saved, id, timestamp).1;
    assert s == [s[0]] + saved;
    DeleteAppend([s[0]], saved, id);
  }

  /** Nothing can be saved before the first calculation, and saving always
      succeeds after one. */
  lemma SaveNeedsCalculation(exp: real -> real, saved: seq<Analysis>, id: int, timestamp: string)
    ensures SaveAnalysis(InitialCalculator, saved, id, timestamp) == (false, saved)
    ensures SaveAnalysis(CalculateReliability(exp, InitialCalculator), saved, id, timestamp).0
  {
  }
}
