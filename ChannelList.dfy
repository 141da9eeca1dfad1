/** Which configured channels the service monitors: the `EventChannel`
    setting is split on `;`, each piece is trimmed, empty pieces are
    skipped, a name is kept only if the channel exists, and a name already
    in the list is not added again. */
module ChannelList {
  import opened Strings
  import opened Seqs

  /** The trimmed pieces of the setting, empty ones included. */
  function Candidates(config: string): seq<string> {
    Trimmed(Split(config, ';'))
  }

  function Trimmed(pieces: seq<string>): (r: seq<string>)
    ensures |r| == |pieces|
  {
    if |pieces| == 0 then [] else Trimmed(pieces[..|pieces| - 1]) + [Trim(pieces[|pieces| - 1])]
  }

  lemma TrimmedStep(pieces: seq<string>, i: nat)
    requires i < |pieces|
    ensures Trimmed(pieces[..i + 1]) == Trimmed(pieces[..i]) + [Trim(pieces[i])]
  {
    assert pieces[..i + 1][..i] == pieces[..i];
  }

  predicate Eligible(name: string, isChannel: string -> bool) {
    |name| > 0 && isChannel(name)
  }

  /** The channel list after the candidates have been considered in order,
      starting from the list `existing`. */
  function KeepAll(existing: seq<string>, candidates: seq<string>, isChannel: string -> bool): (r: seq<string>)
    ensures |existing| <= |r|
  {
    if |candidates| == 0 then existing
    else
      var acc := KeepAll(existing, candidates[..|candidates| - 1], isChannel);
      var c := candidates[|candidates| - 1];
      if Eligible(c, isChannel) && c !in acc then acc + [c] else acc
  }

  /** Names already listed stay where they were. */
  lemma {:induction false} KeepAllPrefix(existing: seq<string>, candidates: seq<string>, isChannel: string -> bool)
    ensures KeepAll(existing, candidates, isChannel)[..|existing|] == existing
  {
    if |candidates| > 0 {
      KeepAllPrefix(existing, candidates[..|candidates| - 1], isChannel);
    }
  }

  /** What considering one candidate adds to the list `names`. */
  function Added(names: seq<string>, candidate: string, isChannel: string -> bool): (r: seq<string>)
    ensures |r| <= 1
  {
    if Eligible(candidate, isChannel) && candidate !in names then [candidate] else []
  }

  // A proof step for the loading loop `Sampler.ConsiderPieces`: one more candidate unfolds `KeepAll` once.
  lemma KeepAllStep(existing: seq<string>, candidates: seq<string>, c: string, isChannel: string -> bool)
    ensures KeepAll(existing, candidates + [c], isChannel) ==
      KeepAll(existing, candidates, isChannel) + Added(KeepAll(existing, candidates, isChannel), c, isChannel)
  {
    assert (candidates + [c])[..|candidates|] == candidates;
  }

  /** Index of the first occurrence of `x` in `s`. */
  function FirstIndex(s: seq<string>, x: string): (k: nat)
    requires x in s
    ensures k < |s| && s[k] == x && x !in s[..k]
  {
    if s[0] == x then 0 else 1 + FirstIndex(s[1..], x)
  }

  lemma {:induction false} FirstIndexPrefix(s: seq<string>, x: string, n: nat)
    requires n <= |s| && x in s[..n]
    ensures FirstIndex(s, x) == FirstIndex(s[..n], x)
  {
    if s[0] != x {
      assert s[..n][1..] == s[1..][..n - 1];
      FirstIndexPrefix(s[1..], x, n - 1);
    }
  }

  /** A name ends up in the list exactly when it was there already or is an
      eligible candidate. */
  lemma {:induction false} KeepAllMembers(existing: seq<string>, candidates: seq<string>, isChannel: string -> bool)
    ensures forall x :: x in KeepAll(existing, candidates, isChannel) <==>
      x in existing || (x in candidates && Eligible(x, isChannel))
  {
    if |candidates| > 0 {
      var init := candidates[..|candidates| - 1];
      KeepAllMembers(existing, init, isChannel);
      assert candidates == init + [candidates[|candidates| - 1]];
    }
  }

  lemma {:induction false} KeepAllNoDuplicates(existing: seq<string>, candidates: seq<string>, isChannel: string -> bool)
    requires NoDuplicates(existing)
    ensures NoDuplicates(KeepAll(existing, candidates, isChannel))
  {
    if |candidates| > 0 {
      KeepAllNoDuplicates(existing, candidates[..|candidates| - 1], isChannel);
    }
  }

  /** Every added name is an eligible candidate. */
  lemma {:induction false} KeepAllAdded(existing: seq<string>, candidates: seq<string>, isChannel: string -> bool)
    ensures forall i :: |existing| <= i < |KeepAll(existing, candidates, isChannel)| ==>
      var x := KeepAll(existing, candidates, isChannel)[i]; x in candidates && Eligible(x, isChannel)
  {
    if |candidates| > 0 {
      var init := candidates[..|candidates| - 1];
      KeepAllAdded(existing, init, isChannel);
      assert candidates == init + [candidates[|candidates| - 1]];
    }
  }

  /** Added names appear in the order of their first occurrence among the
      candidates. */
  predicate FirstOccurrenceOrder(r: seq<string>, from: nat, candidates: seq<string>) {
    forall i, j :: from <= i < j < |r| ==>
      r[i] in candidates && r[j] in candidates && FirstIndex(candidates, r[i]) < FirstIndex(candidates, r[j])
  }

  lemma {:induction false} KeepAllOrder(existing: seq<string>, candidates: seq<string>, isChannel: string -> bool)
    ensures FirstOccurrenceOrder(KeepAll(existing, candidates, isChannel), |existing|, candidates)
  {
    var r := KeepAll(existing, candidates, isChannel);
    KeepAllAdded(existing, candidates, isChannel);
    if |candidates| > 0 {
      var n := |candidates| - 1;
      var init, c := candidates[..n], candidates[n];
      assert candidates == init + [c];
      var acc := KeepAll(existing, init, isChannel);
      KeepAllOrder(existing, init, isChannel);
      KeepAllAdded(existing, init, isChannel);
      forall i, j | |existing| <= i < j < |r|
        ensures FirstIndex(candidates, r[i]) < FirstIndex(candidates, r[j])
      {
        assert r[i] == acc[i] && r[i] in init;
        FirstIndexPrefix(candidates, r[i], n);
        if j < |acc| {
          assert r[j] == acc[j] && r[j] in init;
          FirstIndexPrefix(candidates, r[j], n);
          assert FirstOccurrenceOrder(acc, |existing|, init);
          assert FirstIndex(init, acc[i]) < FirstIndex(init, acc[j]);
        } else {
          assert r[j] == c && c !in acc;
          KeepAllMembers(existing, init, isChannel);
          assert c !in init;
          assert FirstIndex(candidates, c) == n;
        }
      }
    }
  }

  /** Every candidate is already trimmed. */
  lemma {:induction false} CandidatesTrimmed(pieces: seq<string>)
    ensures forall x :: x in Trimmed(pieces) ==> Trim(x) == x
  {
    if |pieces| > 0 {
      CandidatesTrimmed(pieces[..|pieces| - 1]);
      TrimIdempotent(pieces[|pieces| - 1]);
    }
  }

  lemma ConfigCandidatesTrimmed(config: string)
    ensures forall x :: x in Candidates(config) ==> Trim(x) == x
  {
    CandidatesTrimmed(Split(config, ';'));
  }

  /** The guarantees of the loader, for any list of trimmed candidates. */
  lemma LoadedFrom(cands: seq<string>, isChannel: string -> bool)
    requires forall x :: x in cands ==> Trim(x) == x
    ensures var names := KeepAll([], cands, isChannel);
      && (forall i :: 0 <= i < |names| ==> |names[i]| > 0 && isChannel(names[i]) && Trim(names[i]) == names[i])
      && NoDuplicates(names)
      && FirstOccurrenceOrder(names, 0, cands)
      && (forall x :: x in names <==> x in cands && |x| > 0 && isChannel(x))
  {
    KeepAllAdded([], cands, isChannel);
    KeepAllNoDuplicates([], cands, isChannel);
    KeepAllOrder([], cands, isChannel);
    KeepAllMembers([], cands, isChannel);
  }

  /** The list loaded from a setting at start-up satisfies everything the
      loader promises: trimmed, non-empty, existing names, no duplicates,
      first-occurrence order, and no eligible candidate left out. */
  lemma LoadedChannels(config: string, isChannel: string -> bool)
    ensures var cands := Candidates(config);
      var names := KeepAll([], cands, isChannel);
      && (forall i :: 0 <= i < |names| ==> |names[i]| > 0 && isChannel(names[i]) && Trim(names[i]) == names[i])
      && NoDuplicates(names)
      && FirstOccurrenceOrder(names, 0, cands)
      && (forall x :: x in names <==> x in cands && |x| > 0 && isChannel(x))
  {
    ConfigCandidatesTrimmed(config);
    LoadedFrom(Candidates(config), isChannel);
  }
}
