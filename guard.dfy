/** The duplicate-submission guard of `POST /print`: a map from request fingerprint
    to the time (in milliseconds) the fingerprint was last accepted. A repeat within
    the cooldown is refused with the seconds left to wait; an accepted request records
    its fingerprint, and once the map holds more than a hundred entries the expired
    ones are swept out. */
module Guard {
  import opened Wrappers

  /** `JSON.stringify({ time, total })`: equal exactly when `time` and `total` agree. */
  datatype Fingerprint = Fingerprint(time: Option<string>, total: Option<seq<string>>)

  const CooldownMs: int := 30000
  const PruneThreshold: int := 100

  datatype Verdict = Accept | Reject(remainingTime: int)

  /** `Math.ceil((30000 - elapsed) / 1000)` for a whole number of milliseconds. */
  function RemainingSeconds(elapsed: int): (r: int)
    requires elapsed < CooldownMs
    ensures (r - 1) * 1000 < CooldownMs - elapsed <= r * 1000
    ensures r >= 1
    ensures 0 <= elapsed ==> r <= 30
  {
    (CooldownMs - elapsed + 999) / 1000
  }

  /** Whether a request with fingerprint `key` arriving at `now` is turned away. */
  function Decide(m: map<Fingerprint, int>, key: Fingerprint, now: int): (v: Verdict)
    ensures v.Reject? <==> key in m && now - m[key] < CooldownMs
    ensures v.Reject? ==> 1 <= v.remainingTime
    ensures key in m && 0 <= now - m[key] < CooldownMs ==> v.remainingTime <= 30
  {
    if key in m && now - m[key] < CooldownMs then Reject(RemainingSeconds(now - m[key]))
    else Accept
  }

  predicate Expired(timestamp: int, now: int)
  {
    now - timestamp > CooldownMs
  }

  /** The map with every expired entry removed: an entry stays exactly when it has
      not expired, with its timestamp unchanged. */
  function Prune(m: map<Fingerprint, int>, now: int): (r: map<Fingerprint, int>)
    ensures forall k :: k in r <==> k in m && !Expired(m[k], now)
    ensures forall k :: k in r ==> r[k] == m[k]
  {
    map k | k in m && !Expired(m[k], now) :: m[k]
  }

  /** The map after `key` is accepted at `now`: the key is set, and a map grown past
      the threshold is pruned. */
  function Record(m: map<Fingerprint, int>, key: Fingerprint, now: int): (r: map<Fingerprint, int>)
    ensures key in r && r[key] == now
    ensures forall k :: k in r && k != key ==> k in m && r[k] == m[k]
    ensures |m[key := now]| <= PruneThreshold ==> r == m[key := now]
    ensures |m[key := now]| > PruneThreshold ==>
      forall k :: k in m && k != key ==> (k in r <==> !Expired(m[k], now))
  {
    var grown := m[key := now];
    if |grown| > PruneThreshold then Prune(grown, now) else grown
  }

  /** An accepted request adds at most one entry. */
  lemma RecordGrowsByOne(m: map<Fingerprint, int>, key: Fingerprint, now: int)
    ensures |Record(m, key, now)| <= |m| + 1
  {
    var r := Record(m, key, now);
    assert r.Keys <= m.Keys + {key};
    SubsetCard(r.Keys, m.Keys + {key});
  }

  lemma {:induction false} SubsetCard<T>(a: set<T>, b: set<T>)
    requires a <= b
    ensures |a| <= |b|
    decreases |b|
  {
    if a != {} {
      var x :| x in a;
      SubsetCard(a - {x}, b - {x});
    }
  }

  /** Once accepted, the same fingerprint is refused for the whole cooldown, with a
      waiting time between 1 and 30 seconds. */
  lemma CooldownAfterAccept(m: map<Fingerprint, int>, key: Fingerprint, now: int, later: int)
    requires now <= later < now + CooldownMs
    ensures Decide(Record(m, key, now), key, later).Reject?
    ensures 1 <= Decide(Record(m, key, now), key, later).remainingTime <= 30
  {
  }

  /** Two submissions at least the cooldown apart are both accepted. */
  lemma AcceptedAfterCooldown(m: map<Fingerprint, int>, key: Fingerprint, now: int, later: int)
    requires later >= now + CooldownMs
    ensures Decide(Record(m, key, now), key, later) == Accept
  {
  }

  /** The table of recent requests, the one piece of state that outlives a request. */
  class PrintGuard {
    var recent: map<Fingerprint, int>

    constructor ()
      ensures recent == map[]
    {
      recent := map[];
    }

    /** The guard step of `POST /print` for fingerprint `key` at time `now`. */
    method HandlePrint(key: Fingerprint, now: int) returns (v: Verdict)
      modifies this
      ensures v == Decide(old(recent), key, now)
      ensures v.Reject? ==> recent == old(recent)
      ensures v.Accept? ==> recent == Record(old(recent), key, now)
    {
      if key in recent {
        var elapsed := now - recent[key];
        if elapsed < CooldownMs {
          return Reject(RemainingSeconds(elapsed));
        }
      }
      recent := recent[key := now];
      if |recent| > PruneThreshold {
        ghost var full := recent;
        var pending := recent.Keys;
        while pending != {}
          invariant pending <= full.Keys
          invariant forall k :: k in recent <==> k in full && (k in pending || !Expired(full[k], now))
          invariant forall k :: k in recent ==> recent[k] == full[k]
          decreases pending
        {
          var k :| k in pending;
          if now - recent[k] > CooldownMs {
            recent := recent - {k};
          }
          pending := pending - {k};
        }
        assert recent == Prune(full, now);
      }
      v := Accept;
    }
  }
}
