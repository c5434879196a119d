/**
 * Answering a request for peers: eligible peers are grouped by IPv4 /16 subnet and taken round-robin, one from
 * each subnet in turn, up to twenty.
 */
module PeerShare {
  import opened Types
  import opened Holdings

  const MAX_PEERS_TO_SHARE: nat := 20

  /** A connection address; only the first two octets of an IPv4 address matter here. */
  datatype Address = V4(first: nat, second: nat, rest: nat) | V6(id: nat)

  datatype Peer = Peer(address: Address, advertised: string)

  type Prefix = (nat, nat)

  /** The /16 bucket; IPv6 and loopback addresses have none. */
  function Subnet(a: Address): Option<Prefix> {
    if a.V6? || a.first == 127 then None else Some((a.first, a.second))
  }

  /** Two addresses share a bucket exactly when neither has one or both are in the same /16 network. */
  lemma SubnetShared(a: Address, b: Address)
    ensures Subnet(a).None? <==> a.V6? || a.first == 127
    ensures Subnet(a) == Subnet(b) <==>
              || (Subnet(a).None? && Subnet(b).None?)
              || (Subnet(a).Some? && Subnet(b).Some? && a.first == b.first && a.second == b.second)
  {
  }

  function Eligible(peers: seq<Peer>, requester: Address, banned: set<Address>): seq<Peer> {
    if peers == [] then []
    else
      var n := |peers| - 1;
      Eligible(peers[..n], requester, banned) +
      if peers[n].address == requester || peers[n].address in banned then [] else [peers[n]]
  }

  function Names(peers: seq<Peer>): seq<string> {
    seq(|peers|, i requires 0 <= i < |peers| => peers[i].advertised)
  }

  /** The names filed under one bucket, in order of arrival. */
  function Bucket(peers: seq<Peer>, key: Option<Prefix>): seq<string> {
    if peers == [] then []
    else
      var n := |peers| - 1;
      Bucket(peers[..n], key) + if Subnet(peers[n].address) == key then [peers[n].advertised] else []
  }

  /** The subnet buckets, in whatever order the hash map yields its keys. */
  function Buckets(peers: seq<Peer>, keys: seq<Prefix>): (bs: seq<seq<string>>)
    ensures |bs| == |keys| && forall i | 0 <= i < |keys| :: bs[i] == Bucket(peers, Some(keys[i]))
  {
    seq(|keys|, i requires 0 <= i < |keys| => Bucket(peers, Some(keys[i])))
  }

  /** Each subnet that occurs is listed, and none twice. */
  ghost predicate Enumerates(keys: seq<Prefix>, peers: seq<Peer>) {
    && (forall i, j | 0 <= i < j < |keys| :: keys[i] != keys[j])
    && (forall i | 0 <= i < |peers| :: Subnet(peers[i].address).Some? ==> Subnet(peers[i].address).value in keys)
  }

  // ---------------------------------------------------------------- grouping loses nothing

  ghost function Shares(bs: seq<seq<string>>): (ms: seq<multiset<string>>)
    ensures |ms| == |bs| && forall i | 0 <= i < |bs| :: ms[i] == multiset(bs[i])
  {
    seq(|bs|, i requires 0 <= i < |bs| => multiset(bs[i]))
  }

  /** Every name filed, in the special bucket or in a subnet's. */
  ghost function Filed(peers: seq<Peer>, keys: seq<Prefix>): multiset<string> {
    multiset(Bucket(peers, None)) + Total(Shares(Buckets(peers, keys)))
  }

  lemma BucketNext(peers: seq<Peer>, p: Peer, key: Option<Prefix>)
    ensures Bucket(peers + [p], key) == Bucket(peers, key) + if Subnet(p.address) == key then [p.advertised] else []
  {
    assert (peers + [p])[..|peers|] == peers;
  }

  lemma ShareNext(peers: seq<Peer>, p: Peer, keys: seq<Prefix>, i: nat)
    requires i < |keys|
    ensures Shares(Buckets(peers + [p], keys))[i] ==
            Shares(Buckets(peers, keys))[i]
            + if Subnet(p.address) == Some(keys[i]) then multiset{p.advertised} else multiset{}
  {
    BucketNext(peers, p, Some(keys[i]));
  }

  lemma FiledSpecial(peers: seq<Peer>, p: Peer, keys: seq<Prefix>)
    requires Subnet(p.address).None?
    ensures Filed(peers + [p], keys) == Filed(peers, keys) + multiset{p.advertised}
  {
    var ms, ns := Shares(Buckets(peers, keys)), Shares(Buckets(peers + [p], keys));
    forall i | 0 <= i < |keys| ensures ns[i] == ms[i] { ShareNext(peers, p, keys, i); }
    assert ns == ms;
    BucketNext(peers, p, None);
  }

  lemma SubnetGains(peers: seq<Peer>, p: Peer, keys: seq<Prefix>, k: nat)
    requires k < |keys| && Subnet(p.address) == Some(keys[k])
    requires forall i, j | 0 <= i < j < |keys| :: keys[i] != keys[j]
    ensures Total(Shares(Buckets(peers + [p], keys))) == Total(Shares(Buckets(peers, keys))) + multiset{p.advertised}
  {
    var ms, ns := Shares(Buckets(peers, keys)), Shares(Buckets(peers + [p], keys));
    forall i | 0 <= i < |ms|
      ensures ns[i] == if i == k then ms[i] + multiset{p.advertised} else ms[i]
    {
      ShareNext(peers, p, keys, i);
      assert i != k ==> keys[i] != keys[k];
    }
    TotalGainAt(ms, ns, k, multiset{p.advertised});
  }

  lemma FiledSubnet(peers: seq<Peer>, p: Peer, keys: seq<Prefix>, k: nat)
    requires k < |keys| && Subnet(p.address) == Some(keys[k])
    requires forall i, j | 0 <= i < j < |keys| :: keys[i] != keys[j]
    ensures Filed(peers + [p], keys) == Filed(peers, keys) + multiset{p.advertised}
  {
    SubnetGains(peers, p, keys, k);
    BucketNext(peers, p, None);
    assert Bucket(peers + [p], None) == Bucket(peers, None);
  }

  /** One more peer puts one more name into the special bucket or into exactly one subnet's. */
  lemma FiledNext(peers: seq<Peer>, p: Peer, keys: seq<Prefix>)
    requires Enumerates(keys, peers + [p])
    ensures Filed(peers + [p], keys) == Filed(peers, keys) + multiset{p.advertised}
  {
    if Subnet(p.address).None? {
      FiledSpecial(peers, p, keys);
    } else {
      assert (peers + [p])[|peers|] == p;
      var k :| 0 <= k < |keys| && keys[k] == Subnet(p.address).value;
      FiledSubnet(peers, p, keys, k);
    }
  }

  lemma EnumeratesFewer(keys: seq<Prefix>, peers: seq<Peer>, p: Peer)
    requires Enumerates(keys, peers + [p])
    ensures Enumerates(keys, peers)
  {
    assert forall i | 0 <= i < |peers| :: (peers + [p])[i] == peers[i];
  }

  lemma NamesPush(peers: seq<Peer>, p: Peer)
    ensures multiset(Names(peers + [p])) == multiset(Names(peers)) + multiset{p.advertised}
  {
    assert Names(peers + [p]) == Names(peers) + [p.advertised];
  }

  /** Grouping keeps every copy of every name. */
  lemma {:induction false} BucketsPartition(peers: seq<Peer>, keys: seq<Prefix>)
    requires Enumerates(keys, peers)
    ensures multiset(Names(peers)) == Filed(peers, keys)
  {
    if peers == [] {
      TotalOfNothing(Shares(Buckets(peers, keys)));
    } else {
      var init, p := peers[..|peers| - 1], peers[|peers| - 1];
      assert peers == init + [p];
      EnumeratesFewer(keys, init, p);
      BucketsPartition(init, keys);
      FiledNext(init, p, keys);
      NamesPush(init, p);
    }
  }

  // ---------------------------------------------------------------- the round robin

  /** What `taken` picks: the first taken[i] names of each bucket i. */
  ghost function Picked(bs: seq<seq<string>>, taken: seq<nat>): (ms: seq<multiset<string>>)
    requires |taken| == |bs| && forall i | 0 <= i < |bs| :: taken[i] <= |bs[i]|
    ensures |ms| == |bs| && forall i | 0 <= i < |bs| :: ms[i] == multiset(bs[i][..taken[i]])
  {
    seq(|bs|, i requires 0 <= i < |bs| => multiset(bs[i][..taken[i]]))
  }

  ghost predicate Within(bs: seq<seq<string>>, taken: seq<nat>) {
    |taken| == |bs| && forall i | 0 <= i < |bs| :: taken[i] <= |bs[i]|
  }

  /** Buckets before `pos` have had round `round`, the others only the rounds before it. */
  ghost predicate Rounds(bs: seq<seq<string>>, taken: seq<nat>, round: nat, pos: nat) {
    && Within(bs, taken) && pos <= |bs|
    && (forall i | 0 <= i < pos :: taken[i] == Min(round + 1, |bs[i]|))
    && (forall i | pos <= i < |bs| :: taken[i] == Min(round, |bs[i]|))
  }

  /** A bucket more than one behind another has nothing left. */
  ghost predicate Fair(bs: seq<seq<string>>, taken: seq<nat>) {
    Within(bs, taken) &&
    forall i, j | 0 <= i < |bs| && 0 <= j < |bs| :: taken[i] > taken[j] + 1 ==> taken[j] == |bs[j]|
  }

  lemma PickNext(bs: seq<seq<string>>, taken: seq<nat>, i: nat)
    requires Within(bs, taken) && i < |bs| && taken[i] < |bs[i]|
    ensures Within(bs, taken[i := taken[i] + 1])
    ensures Total(Picked(bs, taken[i := taken[i] + 1])) == Total(Picked(bs, taken)) + multiset{bs[i][taken[i]]}
  {
    var ms, next := Picked(bs, taken), taken[i := taken[i] + 1];
    var x := bs[i][taken[i]];
    assert bs[i][..taken[i] + 1] == bs[i][..taken[i]] + [x];
    assert Picked(bs, next) == ms[i := ms[i] + multiset{x}];
    TotalGain(ms, i, multiset{x});
  }

  lemma PickedNone(bs: seq<seq<string>>, taken: seq<nat>)
    requires Within(bs, taken) && forall i | 0 <= i < |bs| :: taken[i] == 0
    ensures Total(Picked(bs, taken)) == multiset{}
  {
    TotalOfNothing(Picked(bs, taken));
  }

  lemma {:induction false} TotalMonotone(ms: seq<multiset<string>>, ns: seq<multiset<string>>)
    requires |ms| == |ns| && forall i | 0 <= i < |ms| :: ms[i] <= ns[i]
    ensures Total(ms) <= Total(ns)
  {
    if ms != [] {
      TotalMonotone(ms[1..], ns[1..]);
    }
  }

  lemma PickedWithin(bs: seq<seq<string>>, taken: seq<nat>)
    requires Within(bs, taken)
    ensures Total(Picked(bs, taken)) <= Total(Shares(bs))
    ensures (forall i | 0 <= i < |bs| :: taken[i] == |bs[i]|) ==> Picked(bs, taken) == Shares(bs)
  {
    forall i | 0 <= i < |bs|
      ensures multiset(bs[i][..taken[i]]) <= multiset(bs[i])
    {
      assert bs[i] == bs[i][..taken[i]] + bs[i][taken[i]..];
    }
    TotalMonotone(Picked(bs, taken), Shares(bs));
    if forall i | 0 <= i < |bs| :: taken[i] == |bs[i]| {
      assert forall i | 0 <= i < |bs| :: bs[i][..taken[i]] == bs[i];
    }
  }

  lemma SmallerSize(a: multiset<string>, b: multiset<string>)
    requires a <= b
    ensures |a| <= |b|
  {
    assert b == a + (b - a);
  }

  /** The list starts with `lead` special names and holds, from each bucket, as many as `taken` says. */
  ghost predicate Lists(list: seq<string>, special: seq<string>, lead: nat, bs: seq<seq<string>>, taken: seq<nat>) {
    && lead <= |special| && Within(bs, taken)
    && lead <= |list| && list[..lead] == special[..lead]
    && multiset(list) == multiset(special[..lead]) + Total(Picked(bs, taken))
  }

  lemma ListPush(list: seq<string>, special: seq<string>, lead: nat, bs: seq<seq<string>>, taken: seq<nat>, i: nat)
    requires Lists(list, special, lead, bs, taken) && i < |bs| && taken[i] < |bs[i]|
    ensures Lists(list + [bs[i][taken[i]]], special, lead, bs, taken[i := taken[i] + 1])
  {
    PickNext(bs, taken, i);
  }

  lemma ListSize(list: seq<string>, special: seq<string>, lead: nat, bs: seq<seq<string>>, taken: seq<nat>,
                 all: multiset<string>)
    requires Lists(list, special, lead, bs, taken) && all == multiset(special) + Total(Shares(bs))
    ensures multiset(list) <= all && |list| <= |all|
    ensures lead == |special| && (forall i | 0 <= i < |bs| :: taken[i] == |bs[i]|) ==> |list| == |all|
  {
    PickedWithin(bs, taken);
    assert special == special[..lead] + special[lead..];
    SmallerSize(multiset(list), all);
    assert |multiset(list)| == |list|;
    if lead == |special| && forall i | 0 <= i < |bs| :: taken[i] == |bs[i]| {
      assert special[..lead] == special;
    }
  }

  lemma RoundsFair(bs: seq<seq<string>>, taken: seq<nat>, round: nat, pos: nat)
    requires Rounds(bs, taken, round, pos)
    ensures Fair(bs, taken)
  {
  }

  /** Passing bucket i takes its next name, if it has one. */
  lemma RoundsNext(bs: seq<seq<string>>, taken: seq<nat>, round: nat, i: nat)
    requires i < |bs| && Rounds(bs, taken, round, i)
    ensures Rounds(bs, if round < |bs[i]| then taken[i := taken[i] + 1] else taken, round, i + 1)
    ensures round < |bs[i]| ==> taken[i] == round
  {
  }

  /** One pass over the buckets, stopping when the list is full. */
  method OneRound(start: seq<string>, ghost special: seq<string>, ghost lead: nat, bs: seq<seq<string>>, round: nat,
                  ghost before: seq<nat>)
    returns (list: seq<string>, added: nat, ghost taken: seq<nat>, ghost pos: nat)
    requires Lists(start, special, lead, bs, before) && Rounds(bs, before, round, 0) && |start| < MAX_PEERS_TO_SHARE
    ensures Lists(list, special, lead, bs, taken) && Rounds(bs, taken, round, pos) && |list| <= MAX_PEERS_TO_SHARE
    ensures |list| == |start| + added
    ensures |list| < MAX_PEERS_TO_SHARE ==> pos == |bs|
    ensures added == 0 ==> forall i | 0 <= i < |bs| :: |bs[i]| <= round
  {
    list, added, taken, pos := start, 0, before, 0;
    var i := 0;
    while i < |bs|
      invariant i == pos <= |bs| && |list| == |start| + added <= MAX_PEERS_TO_SHARE
      invariant Lists(list, special, lead, bs, taken) && Rounds(bs, taken, round, i)
      invariant added == 0 ==> forall j | 0 <= j < i :: |bs[j]| <= round
    {
      if |list| >= MAX_PEERS_TO_SHARE {
        return;
      }
      RoundsNext(bs, taken, round, i);
      if round < |bs[i]| {
        ListPush(list, special, lead, bs, taken, i);
        list := list + [bs[i][round]];
        taken := taken[i := taken[i] + 1];
        added := added + 1;
      }
      i := i + 1;
      pos := i;
    }
  }

  /**
   * The selection: exactly twenty names, or all of them when there are fewer; never more copies of a name than
   * were offered; special names first; and no subnet more than one ahead of another that still has names.
   */
  method RoundRobin(special: seq<string>, bs: seq<seq<string>>)
    returns (list: seq<string>, ghost lead: nat, ghost taken: seq<nat>)
    ensures var all := multiset(special) + Total(Shares(bs));
            multiset(list) <= all && |list| == Min(MAX_PEERS_TO_SHARE, |all|)
    ensures lead == Min(MAX_PEERS_TO_SHARE, |special|) && Lists(list, special, lead, bs, taken) && Fair(bs, taken)
  {
    list := TakeSpecial(special);
    lead := |list|;
    taken := seq(|bs|, _ => 0);
    PickedNone(bs, taken);
    ghost var all := multiset(special) + Total(Shares(bs));
    ghost var pos: nat := 0;
    var round := 0;
    while |list| < MAX_PEERS_TO_SHARE
      invariant |list| <= MAX_PEERS_TO_SHARE && Lists(list, special, lead, bs, taken)
      invariant Rounds(bs, taken, round, pos) && (|list| < MAX_PEERS_TO_SHARE ==> pos == 0)
      decreases MAX_PEERS_TO_SHARE - |list|
    {
      var added;
      list, added, taken, pos := OneRound(list, special, lead, bs, round, taken);
      if added == 0 {
        break;
      }
      if |list| < MAX_PEERS_TO_SHARE {
        NextRound(bs, taken, round);
        pos := 0;
        round := round + 1;
      } else {
        RoundsFair(bs, taken, round, pos);
        ListSize(list, special, lead, bs, taken, all);
        return;
      }
    }
    RoundsFair(bs, taken, round, pos);
    ListSize(list, special, lead, bs, taken, all);
  }

  lemma NextRound(bs: seq<seq<string>>, taken: seq<nat>, round: nat)
    requires Rounds(bs, taken, round, |bs|)
    ensures Rounds(bs, taken, round + 1, 0)
  {
  }

  method TakeSpecial(special: seq<string>) returns (list: seq<string>)
    ensures list == special[..Min(MAX_PEERS_TO_SHARE, |special|)]
  {
    list := [];
    var i := 0;
    while i < |special| && |list| < MAX_PEERS_TO_SHARE
      invariant i == |list| <= |special| && i <= MAX_PEERS_TO_SHARE && list == special[..i]
    {
      list := list + [special[i]];
      i := i + 1;
    }
  }

  /** A peer may be shared exactly when it is listed, did not ask, and is not banned. */
  lemma {:induction false} EligibleExact(peers: seq<Peer>, requester: Address, banned: set<Address>, p: Peer)
    ensures multiset(Eligible(peers, requester, banned))[p] ==
            if p.address == requester || p.address in banned then 0 else multiset(peers)[p]
  {
    if peers != [] {
      var n := |peers| - 1;
      EligibleExact(peers[..n], requester, banned, p);
      assert peers == peers[..n] + [peers[n]];
    }
  }

  /**
   * The whole answer: min(20, eligible) names, each at most as often as it is advertised by an eligible peer, those
   * outside any subnet first, the rest shared fairly among the subnets.
   */
  method AnswerPeers(peers: seq<Peer>, requester: Address, banned: set<Address>, keys: seq<Prefix>)
    returns (list: seq<string>, ghost lead: nat, ghost taken: seq<nat>)
    requires Enumerates(keys, Eligible(peers, requester, banned))
    ensures var eligible := Eligible(peers, requester, banned);
            |list| == Min(MAX_PEERS_TO_SHARE, |eligible|) && multiset(list) <= multiset(Names(eligible))
    ensures var eligible := Eligible(peers, requester, banned);
            var bs := Buckets(eligible, keys);
            && lead == Min(MAX_PEERS_TO_SHARE, |Bucket(eligible, None)|)
            && Lists(list, Bucket(eligible, None), lead, bs, taken) && Fair(bs, taken)
  {
    var eligible := Eligible(peers, requester, banned);
    BucketsPartition(eligible, keys);
    assert |multiset(Names(eligible))| == |eligible|;
    list, lead, taken := RoundRobin(Bucket(eligible, None), Buckets(eligible, keys));
  }
}
