/** The server's choice of a cipher suite under preference groups. */
module CipherChoice {
  import opened Bytes

  datatype Cipher = Cipher(id: nat, minVersion: nat, maxVersion: nat, kx: bv32, auth: bv32)

  /** What the connection allows: the version, and the key exchanges and authentications the server is set up for. */
  datatype Setup = Setup(version: nat, maskK: bv32, maskA: bv32)

  predicate Compatible(c: Cipher, s: Setup) {
    c.minVersion <= s.version <= c.maxVersion && c.kx & s.maskK != 0 && c.auth & s.maskA != 0
  }

  /** `sk_SSL_CIPHER_find`: the first place in a list, or the list's length. */
  function Find(list: seq<Cipher>, c: Cipher): (i: nat)
    ensures i <= |list| && (i < |list| ==> list[i] == c) && (forall k :: 0 <= k < i ==> list[k] != c)
  {
    if list == [] || list[0] == c then 0 else 1 + Find(list[1..], c)
  }

  /** The lists of one choice. Flag 1 says that a suite is not the last of its group, 0 that it is; without flags every
      suite is a group of its own. */
  datatype Lists = Lists(prio: seq<Cipher>, allow: seq<Cipher>, flags: Option<seq<nat>>)

  predicate WellFormed(l: Lists) {
    l.flags.Some? ==> |l.flags.value| == |l.prio| && forall i :: 0 <= i < |l.prio| ==> l.flags.value[i] <= 1
  }

  predicate More(l: Lists, i: nat)
    requires WellFormed(l) && i < |l.prio|
  {
    l.flags.Some? && l.flags.value[i] == 1
  }

  /** Suite i is compatible and on both lists. */
  predicate Candidate(l: Lists, s: Setup, i: nat)
    requires i < |l.prio|
  {
    Compatible(l.prio[i], s) && Find(l.allow, l.prio[i]) < |l.allow|
  }

  ghost predicate SameGroup(l: Lists, i: nat, j: nat)
    requires WellFormed(l) && i < |l.prio| && j < |l.prio|
  {
    forall m :: (i <= m < j || j <= m < i) ==> More(l, m)
  }

  /** No group ends at or after i. */
  ghost predicate Unterminated(l: Lists, i: nat)
    requires WellFormed(l) && i < |l.prio|
  {
    forall m :: i <= m < |l.prio| ==> More(l, m)
  }

  /** Candidate j lies in the first group with a candidate, and of those there it comes first on the other list. */
  ghost predicate Best(l: Lists, s: Setup, j: nat)
    requires WellFormed(l)
  {
    && j < |l.prio| && Candidate(l, s, j)
    && (forall k :: 0 <= k < |l.prio| && Candidate(l, s, k) ==> k >= j || SameGroup(l, k, j))
    && (forall k :: 0 <= k < |l.prio| && Candidate(l, s, k) && SameGroup(l, k, j) ==>
          Find(l.allow, l.prio[j]) <= Find(l.allow, l.prio[k]))
  }

  /** `ssl3_choose_cipher`, given the lists in their roles. It gives up on the candidates of a last group that never
      ends, and on nothing else. */
  method Choose(l: Lists, s: Setup) returns (r: Option<Cipher>)
    requires WellFormed(l)
    ensures r == None <==> forall i :: 0 <= i < |l.prio| && Candidate(l, s, i) ==> Unterminated(l, i)
    ensures r.Some? ==> exists j: nat :: Best(l, s, j) && r.value == l.prio[j]
  {
    hide Compatible, Find;
    var groupMin := -1;
    ghost var first, best := 0, 0;
    for i := 0 to |l.prio|
      invariant groupMin == -1 ==> forall k :: 0 <= k < i ==> !Candidate(l, s, k)
      invariant groupMin != -1 ==> Leading(l, s, i, first, best) && groupMin == Find(l.allow, l.prio[best])
    {
      if Compatible(l.prio[i], s) {
        var index := Find(l.allow, l.prio[i]);
        if index < |l.allow| {
          ghost var newFirst := if groupMin == -1 then i else first;
          ghost var newBest := if groupMin == -1 || groupMin > index then i else best;
          if More(l, i) {
            if groupMin == -1 || groupMin > index {
              groupMin := index;
            }
            first, best := newFirst, newBest;
          } else {
            if groupMin != -1 && groupMin < index {
              index := groupMin;
            }
            Leads(l, s, i, newFirst, newBest);
            return Some(l.allow[index]);
          }
        }
      }
      if !More(l, i) && groupMin != -1 {
        Leads(l, s, i, first, best);
        return Some(l.allow[groupMin]);
      }
    }
    r := None;
  }

  /** Among the first i suites: the candidates start at first, no group ended since, and best is the best of them. */
  ghost predicate Leading(l: Lists, s: Setup, i: nat, first: nat, best: nat)
    requires WellFormed(l) && i <= |l.prio|
  {
    && first <= best < i && Candidate(l, s, best)
    && (forall m :: first <= m < i ==> More(l, m))
    && (forall k :: 0 <= k < i && Candidate(l, s, k) ==>
      first <= k && Find(l.allow, l.prio[best]) <= Find(l.allow, l.prio[k]))
  }

  /** Where the group ends, the best so far is the choice. */
  lemma Leads(l: Lists, s: Setup, i: nat, first: nat, best: nat)
    requires WellFormed(l) && i < |l.prio| && !More(l, i) && first <= best <= i && Candidate(l, s, best)
    requires forall m :: first <= m < i ==> More(l, m)
    requires forall k :: 0 <= k <= i && Candidate(l, s, k) ==>
      first <= k && Find(l.allow, l.prio[best]) <= Find(l.allow, l.prio[k])
    ensures Best(l, s, best) && !Unterminated(l, best)
  {
    hide Compatible, Find;
    forall k | i < k < |l.prio| ensures !SameGroup(l, k, best) { GroupStops(l, k, best, i); }
  }

  lemma GroupStops(l: Lists, k: nat, j: nat, i: nat)
    requires WellFormed(l) && j <= i < k < |l.prio| && !More(l, i)
    ensures !SameGroup(l, k, j)
  {
  }

  /** Both lists in their roles: the server's order counts, with its groups, or the client's. */
  function Roles(serverPreference: bool, server: seq<Cipher>, flags: seq<nat>, client: seq<Cipher>): Lists {
    if serverPreference then Lists(server, client, Some(flags)) else Lists(client, server, None)
  }

  /** The whole of `ssl3_choose_cipher`: a client list that does not parse gives nothing. */
  method ChooseCipher(serverPreference: bool, server: seq<Cipher>, flags: seq<nat>, client: Option<seq<Cipher>>,
      s: Setup)
    returns (r: Option<Cipher>)
    requires |flags| == |server| && forall i :: 0 <= i < |flags| ==> flags[i] <= 1
    ensures client == None ==> r == None
    ensures client.Some? && r.Some? ==> r.value in server && r.value in client.value && Compatible(r.value, s)
    ensures client.Some? && r.Some? ==> exists j: nat ::
      Best(Roles(serverPreference, server, flags, client.value), s, j)
        && r.value == (if serverPreference then server else client.value)[j]
    ensures client.Some? && r == None && (!serverPreference || server == [] || flags[|flags| - 1] == 0) ==>
      !exists c :: c in server && c in client.value && Compatible(c, s)
  {
    hide Compatible;
    if client == None {
      return None;
    }
    var l := Roles(serverPreference, server, flags, client.value);
    r := Choose(l, s);
    if r.Some? {
      ghost var j: nat :| Best(l, s, j) && r.value == l.prio[j];
      assert l.allow[Find(l.allow, l.prio[j])] == l.prio[j];
    } else if !serverPreference || server == [] || flags[|flags| - 1] == 0 {
      TerminatedNeverGivesUp(l, s);
    }
  }

  /** If the last flag is 0, as the preference list promises, a cipher is chosen exactly if the lists share a
      compatible one. */
  lemma TerminatedNeverGivesUp(l: Lists, s: Setup)
    requires WellFormed(l) && (l.prio != [] ==> !More(l, |l.prio| - 1))
    ensures (forall i :: 0 <= i < |l.prio| && Candidate(l, s, i) ==> Unterminated(l, i)) <==>
      !exists c :: c in l.prio && c in l.allow && Compatible(c, s)
  {
    hide Compatible;
    forall i | 0 <= i < |l.prio| ensures !Unterminated(l, i) { assert !More(l, |l.prio| - 1); }
    if c :| c in l.prio && c in l.allow && Compatible(c, s) {
      var i :| 0 <= i < |l.prio| && l.prio[i] == c;
      assert Candidate(l, s, i);
    }
    forall i | 0 <= i < |l.prio| && Candidate(l, s, i) ensures l.prio[i] in l.prio && l.prio[i] in l.allow {
      assert l.allow[Find(l.allow, l.prio[i])] == l.prio[i];
    }
  }

  /** The failing case: one shared suite, in a group that does not end, is not chosen. */
  lemma UnterminatedGivesUp()
    ensures
      var c := Cipher(1, 1, 1, 1, 1);
      var l, s := Lists([c], [c], Some([1])), Setup(1, 1, 1);
      WellFormed(l) && Candidate(l, s, 0) && forall i :: 0 <= i < |l.prio| && Candidate(l, s, i) ==> Unterminated(l, i)
  {
  }
}
