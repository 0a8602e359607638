/**
 * The conference view: the SDK's peer list with duplicate ids dropped, at most
 * two video tiles, and the transcript panel and assistant that only the room's
 * creator sees. The peer list is an input; only a peer's id matters here.
 */
module Conference {
  import opened Wrappers
  import Seqs

  datatype Peer = Peer(id: string, name: string)

  function PeerId(p: Peer): string {
    p.id
  }

  /** `self.findIndex(p => p.id === id)`, `None` for -1. */
  function FindIndex(s: seq<Peer>, id: string): Option<nat> {
    Seqs.FindKey(s, PeerId, id)
  }

  /** Peer `i` is the first with its id. */
  predicate IsFirstOccurrence(s: seq<Peer>, i: nat)
    requires i < |s|
  {
    FindIndex(s, s[i].id) == Some(i)
  }

  /** The filter callback from index `k` on: the peers kept by the index test, in order. */
  function KeepFirsts(s: seq<Peer>, k: nat): (r: seq<Peer>)
    requires k <= |s|
    decreases |s| - k
  {
    if k == |s| then []
    else (if IsFirstOccurrence(s, k) then [s[k]] else []) + KeepFirsts(s, k + 1)
  }

  /** `uniquePeers`: a peer stays exactly when its index is the first index of its id. */
  function UniquePeers(peers: seq<Peer>): seq<Peer> {
    KeepFirsts(peers, 0)
  }

  /** The ids of a list. */
  function IdsOf(s: seq<Peer>): set<string> {
    Seqs.KeySet(s, PeerId)
  }

  /** ---------------------------------------------------------------- reference definition */

  /** Keep each peer whose id has not been seen yet, and note it as seen. */
  function Dedup(s: seq<Peer>, seen: set<string>): (r: seq<Peer>)
    decreases |s|
  {
    if s == [] then []
    else if s[0].id in seen then Dedup(s[1..], seen)
    else [s[0]] + Dedup(s[1..], seen + {s[0].id})
  }

  predicate DistinctIds(s: seq<Peer>) {
    forall i, j :: 0 <= i < j < |s| ==> s[i].id != s[j].id
  }

  /** `Dedup` keeps pairwise distinct ids, none of them already seen. */
  lemma {:induction false} DedupDistinct(s: seq<Peer>, seen: set<string>)
    ensures DistinctIds(Dedup(s, seen))
    ensures forall i :: 0 <= i < |Dedup(s, seen)| ==> Dedup(s, seen)[i].id !in seen
    decreases |s|
  {
    if s != [] && s[0].id in seen {
      DedupDistinct(s[1..], seen);
    } else if s != [] {
      var rest := Dedup(s[1..], seen + {s[0].id});
      DedupDistinct(s[1..], seen + {s[0].id});
      var r := [s[0]] + rest;
      forall i, j | 0 <= i < j < |r|
        ensures r[i].id != r[j].id
      {
        assert r[j] == rest[j - 1];
        if i > 0 {
          assert r[i] == rest[i - 1];
        }
      }
      forall i | 0 <= i < |r|
        ensures r[i].id !in seen
      {
        if i > 0 {
          assert r[i] == rest[i - 1];
        }
      }
    }
  }

  /** `Dedup` keeps exactly the ids of the input that were not seen. */
  lemma {:induction false} DedupIds(s: seq<Peer>, seen: set<string>)
    ensures IdsOf(Dedup(s, seen)) == IdsOf(s) - seen
    decreases |s|
  {
    if s != [] {
      var seen' := if s[0].id in seen then seen else seen + {s[0].id};
      DedupIds(s[1..], seen');
      assert IdsOf(s) == {s[0].id} + IdsOf(s[1..]) by {
        forall x | x in IdsOf(s)
          ensures x in {s[0].id} + IdsOf(s[1..])
        {
          var i :| 0 <= i < |s| && s[i].id == x;
          if i > 0 {
            assert s[1..][i - 1].id == x;
          }
        }
        forall x | x in IdsOf(s[1..])
          ensures x in IdsOf(s)
        {
          var i :| 0 <= i < |s[1..]| && s[1..][i].id == x;
          assert s[i + 1].id == x;
        }
      }
      if s[0].id !in seen {
        var rest := Dedup(s[1..], seen');
        var r := [s[0]] + rest;
        assert IdsOf(r) == {s[0].id} + IdsOf(rest) by {
          forall x | x in IdsOf(r)
            ensures x in {s[0].id} + IdsOf(rest)
          {
            var i :| 0 <= i < |r| && r[i].id == x;
            if i > 0 {
              assert rest[i - 1].id == x;
            }
          }
          forall x | x in IdsOf(rest)
            ensures x in IdsOf(r)
          {
            var i :| 0 <= i < |rest| && rest[i].id == x;
            assert r[i + 1].id == x;
          }
          assert r[0].id == s[0].id;
        }
      }
    }
  }

  /** `Dedup` drops peers but never reorders them. */
  lemma {:induction false} DedupSubsequence(s: seq<Peer>, seen: set<string>)
    ensures Seqs.IsSubsequence(Dedup(s, seen), s)
    decreases |s|
  {
    if s != [] {
      if s[0].id in seen {
        DedupSubsequence(s[1..], seen);
        SubsequenceSkip(Dedup(s[1..], seen), s);
      } else {
        DedupSubsequence(s[1..], seen + {s[0].id});
        assert ([s[0]] + Dedup(s[1..], seen + {s[0].id}))[1..] == Dedup(s[1..], seen + {s[0].id});
      }
    }
  }

  /** Dropping the head of the longer list keeps a subsequence a subsequence. */
  lemma SubsequenceSkip(a: seq<Peer>, s: seq<Peer>)
    requires s != [] && Seqs.IsSubsequence(a, s[1..])
    ensures Seqs.IsSubsequence(a, s)
  {
  }

  /** A list with distinct ids, none of them seen, passes through unchanged. */
  lemma {:induction false} DedupOfDistinct(s: seq<Peer>, seen: set<string>)
    requires DistinctIds(s)
    requires forall i :: 0 <= i < |s| ==> s[i].id !in seen
    ensures Dedup(s, seen) == s
    decreases |s|
  {
    if s != [] {
      forall i | 0 <= i < |s[1..]|
        ensures s[1..][i].id !in seen + {s[0].id}
      {
        assert s[1..][i] == s[i + 1];
      }
      DedupOfDistinct(s[1..], seen + {s[0].id});
    }
  }

  /** ---------------------------------------------------------------- the filter as written equals the reference */

  /** The first index of an id is `i` exactly when the id does not occur before `i`. */
  lemma FirstOccurrenceIff(s: seq<Peer>, k: nat)
    requires k < |s|
    ensures IsFirstOccurrence(s, k) <==> s[k].id !in IdsOf(s[..k])
  {
    var f := FindIndex(s, s[k].id);
    if s[k].id in IdsOf(s[..k]) {
      var i :| 0 <= i < k && s[..k][i].id == s[k].id;
      assert s[i].id == s[k].id;
    }
  }

  /** The ids of a prefix grow by the id of the next peer. */
  lemma IdsOfPrefixStep(s: seq<Peer>, k: nat)
    requires k < |s|
    ensures IdsOf(s[..k + 1]) == IdsOf(s[..k]) + {s[k].id}
  {
    assert s[..k + 1] == s[..k] + [s[k]];
    Seqs.KeySetSnoc(s[..k], s[k], PeerId);
  }

  /** One step of the index filter, with the index test read as "not seen before". */
  lemma KeepFirstsStep(s: seq<Peer>, k: nat)
    requires k < |s|
    ensures KeepFirsts(s, k) == (if s[k].id in IdsOf(s[..k]) then [] else [s[k]]) + KeepFirsts(s, k + 1)
  {
    FirstOccurrenceIff(s, k);
  }

  /** One step of the reference, written the same way: adding a seen id again changes nothing. */
  lemma DedupStep(t: seq<Peer>, seen: set<string>)
    requires t != []
    ensures Dedup(t, seen) == (if t[0].id in seen then [] else [t[0]]) + Dedup(t[1..], seen + {t[0].id})
  {
    if t[0].id in seen {
      assert seen + {t[0].id} == seen;
      assert [] + Dedup(t[1..], seen) == Dedup(t[1..], seen);
    }
  }

  lemma {:induction false} KeepFirstsIsDedup(s: seq<Peer>, k: nat)
    requires k <= |s|
    ensures KeepFirsts(s, k) == Dedup(s[k..], IdsOf(s[..k]))
    decreases |s| - k
  {
    if k < |s| {
      var seen := IdsOf(s[..k]);
      var t := s[k..];
      KeepFirstsIsDedup(s, k + 1);
      KeepFirstsStep(s, k);
      IdsOfPrefixStep(s, k);
      DedupStep(t, seen);
      assert t[0] == s[k] && t[1..] == s[k + 1..];
    } else {
      assert s[k..] == [];
    }
  }

  /** The index test of `uniquePeers` and the seen-set definition agree on every list. */
  lemma UniquePeersIsDedup(peers: seq<Peer>)
    ensures UniquePeers(peers) == Dedup(peers, {})
  {
    KeepFirstsIsDedup(peers, 0);
    assert peers[0..] == peers;
    assert IdsOf(peers[..0]) == {};
  }

  /**
   * `uniquePeers` has pairwise distinct ids, keeps every id of the list, and is
   * the list with some peers dropped, in order.
   */
  lemma UniquePeersFacts(peers: seq<Peer>)
    ensures DistinctIds(UniquePeers(peers))
    ensures IdsOf(UniquePeers(peers)) == IdsOf(peers)
    ensures Seqs.IsSubsequence(UniquePeers(peers), peers)
  {
    UniquePeersIsDedup(peers);
    DedupDistinct(peers, {});
    DedupIds(peers, {});
    DedupSubsequence(peers, {});
  }

  /** Dropping duplicates twice is dropping them once. */
  lemma UniquePeersIdempotent(peers: seq<Peer>)
    ensures UniquePeers(UniquePeers(peers)) == UniquePeers(peers)
  {
    UniquePeersFacts(peers);
    UniquePeersIsDedup(UniquePeers(peers));
    DedupOfDistinct(UniquePeers(peers), {});
  }

  /** ---------------------------------------------------------------- layout */

  /** `uniquePeers.slice(0, 2)`: the first two unique peers, or fewer when there are fewer. */
  function Tiles(peers: seq<Peer>): (tiles: seq<Peer>)
    ensures |tiles| <= 2
    ensures |tiles| == if |UniquePeers(peers)| < 2 then |UniquePeers(peers)| else 2
    ensures tiles == UniquePeers(peers)[..|tiles|]
  {
    var u := UniquePeers(peers);
    if |u| < 2 then u else u[..2]
  }

  /** The tiles never show the same participant twice. */
  lemma TilesDistinct(peers: seq<Peer>)
    ensures DistinctIds(Tiles(peers))
  {
    UniquePeersFacts(peers);
  }

  /** What the main area holds. */
  datatype Layout = Layout(transcriptPanel: bool, tiles: seq<Peer>, chatBot: bool)

  /**
   * The creator sees the transcript panel, the tiles and the assistant; a code
   * joiner sees only the tiles. The tiles are the same either way.
   */
  function Render(peers: seq<Peer>, isRoomCreator: bool): (l: Layout)
    ensures l.transcriptPanel <==> isRoomCreator
    ensures l.chatBot <==> isRoomCreator
    ensures l.tiles == Tiles(peers)
  {
    if isRoomCreator then Layout(true, Tiles(peers), true)
    else Layout(false, Tiles(peers), false)
  }

  /** A duplicated peer entry from the SDK never costs the other participant their tile. */
  lemma DuplicateDoesNotHideSecondPeer(a: Peer, b: Peer)
    requires a.id != b.id
    ensures Tiles([a, a, b]) == [a, b]
  {
    UniquePeersIsDedup([a, a, b]);
    assert [a, a, b][1..] == [a, b];
    assert [a, b][1..] == [b];
    assert [b][1..] == [];
    assert Dedup([b], {a.id}) == [b];
    assert Dedup([a, b], {a.id}) == [b];
    assert {} + {a.id} == {a.id};
    assert Dedup([a, a, b], {}) == [a] + Dedup([a, b], {a.id});
  }
}
