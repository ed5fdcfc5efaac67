// Who sits where: the seats of all desks beside what the game keeps about its
// clients.

module DdzSeating {
  import opened DdzTable
  import opened Deck

  /** What the game keeps about a client: the number of its desk or -1, and its flags. */
  datatype ClientInfo = ClientInfo(desk: int, ready: bool, declared: bool)

  const NoDesk := ClientInfo(-1, false, false)

  /** A client that has a desk sits there, and whoever sits at a desk has that desk. */
  ghost predicate Seating(all: seq<seq<int>>, infos: map<int, ClientInfo>)
  {
    && (forall i :: 0 <= i < |all| ==> |all[i]| == SEATS && SeatsDiffer(all[i]))
    && (forall c :: c in infos ==> c != NOBODY && -1 <= infos[c].desk < |all|)
    && (forall c :: c in infos && infos[c].desk != -1 ==> c in all[infos[c].desk])
    && (forall i, p :: 0 <= i < |all| && 0 <= p < SEATS && all[i][p] != NOBODY ==>
          all[i][p] in infos && infos[all[i][p]].desk == i)
  }

  lemma DifferentSeats(seats: seq<int>, p: nat, q: nat)
    requires |seats| == SEATS && SeatsDiffer(seats) && p < SEATS && q < SEATS && p != q && seats[p] != NOBODY
    ensures seats[p] != seats[q]
  {
  }

  /** A client has a desk exactly if it sits there, in one seat, and it sits at no other desk. */
  lemma OneSeat(all: seq<seq<int>>, infos: map<int, ClientInfo>, c: int, k: nat)
    requires Seating(all, infos) && c in infos && k < |all|
    ensures infos[c].desk == k <==> c in all[k]
    ensures c in all[k] ==>
      exists p :: 0 <= p < SEATS && all[k][p] == c && forall q :: 0 <= q < SEATS && q != p ==> all[k][q] != c
    ensures c in all[k] ==> forall i :: 0 <= i < |all| && i != k ==> c !in all[i]
  {
    hide SeatsDiffer;
    if c in all[k] {
      var p :| 0 <= p < SEATS && all[k][p] == c;
      forall q | 0 <= q < SEATS && q != p
        ensures all[k][q] != c
      {
        DifferentSeats(all[k], p, q);
      }
    }
  }

  lemma LeftSeats(seats: seq<int>, p: nat)
    requires |seats| == SEATS && SeatsDiffer(seats) && p < SEATS && seats[p] != NOBODY
    ensures SeatsDiffer(seats[p := NOBODY]) && seats[p] !in seats[p := NOBODY]
    ensures forall c :: c in seats && c != seats[p] ==> c in seats[p := NOBODY]
  {
    forall c | c in seats && c != seats[p]
      ensures c in seats[p := NOBODY]
    {
      var q :| 0 <= q < |seats| && seats[q] == c;
      assert seats[p := NOBODY][q] == c;
    }
  }

  /** A client that leaves its seat takes no one else's. */
  lemma Leaving(all: seq<seq<int>>, infos: map<int, ClientInfo>, client: int, k: nat, p: nat)
    requires Seating(all, infos) && client in infos && k < |all| && p < SEATS && all[k][p] == client
    ensures Seating(all[k := all[k][p := NOBODY]], infos[client := NoDesk])
  {
    LeftSeats(all[k], p);
    hide SeatsDiffer;
    var less, known := all[k := all[k][p := NOBODY]], infos[client := NoDesk];
    forall i, q | 0 <= i < |less| && 0 <= q < SEATS && less[i][q] != NOBODY
      ensures less[i][q] in known && known[less[i][q]].desk == i
    {
      assert less[i][q] == all[i][q];
      if i == k { assert less[k][q] in less[k]; }
    }
  }

  /** A client without a desk sits nowhere and can be forgotten. */
  lemma NotSeated(all: seq<seq<int>>, infos: map<int, ClientInfo>, client: int)
    requires Seating(all, infos) && client in infos && infos[client].desk == -1
    ensures Seating(all, infos - {client})
  {
  }

  lemma SatSeats(seats: seq<int>, p: nat, client: int)
    requires |seats| == SEATS && SeatsDiffer(seats) && p < SEATS && seats[p] == NOBODY && client !in seats
    ensures SeatsDiffer(seats[p := client])
    ensures forall c :: c in seats && c != NOBODY ==> c in seats[p := client]
  {
  }

  /** A client without a desk can take any free seat. */
  lemma Sitting(all: seq<seq<int>>, infos: map<int, ClientInfo>, client: int, k: nat, p: nat)
    requires Seating(all, infos) && client in infos && infos[client].desk == -1
    requires k < |all| && p < SEATS && all[k][p] == NOBODY
    ensures client !in all[k]
    ensures Seating(all[k := all[k][p := client]], infos[client := infos[client].(desk := k)])
  {
    OneSeat(all, infos, client, k);
    SatSeats(all[k], p, client);
    hide SeatsDiffer;
    var more, known := all[k := all[k][p := client]], infos[client := infos[client].(desk := k)];
    assert more[k][p] == client;
    forall i, q | 0 <= i < |more| && 0 <= q < SEATS && more[i][q] != NOBODY
      ensures more[i][q] in known && known[more[i][q]].desk == i
    {
      if !(i == k && q == p) { assert more[i][q] == all[i][q]; }
    }
  }

  // ------------------------------------------------------------------ looking for a desk

  /** The number of free seats. */
  function FreeCount(seats: seq<int>): nat
  {
    if seats == [] then 0 else FreeCount(seats[..|seats| - 1]) + if seats[|seats| - 1] == NOBODY then 1 else 0
  }

  lemma FreeCountNext(seats: seq<int>, i: nat)
    requires i < |seats|
    ensures FreeCount(seats[..i + 1]) == FreeCount(seats[..i]) + if seats[i] == NOBODY then 1 else 0
  {
    assert seats[..i + 1][..i] == seats[..i];
  }

  lemma {:induction false} FreeCountGrows(seats: seq<int>, i: nat)
    requires i <= |seats|
    ensures FreeCount(seats[..i]) <= FreeCount(seats) <= |seats|
  {
    if seats == [] {
    } else if i < |seats| {
      FreeCountGrows(seats[..|seats| - 1], i);
      assert seats[..|seats| - 1][..i] == seats[..i];
    } else {
      FreeCountGrows(seats[..|seats| - 1], i - 1);
      assert seats[..i] == seats;
    }
  }

  /** A desk with the number `k` where a client that comes from the desk `last` could sit down. */
  predicate Candidate(tables: seq<Table>, k: int, last: int)
  {
    0 <= k < |tables| && k != last && !tables[k].running && FreeCount(tables[k].seats) > 0
  }

  /** The desk to sit at: the first of those with the fewest free seats. */
  ghost predicate Preferred(tables: seq<Table>, k: int, last: int)
  {
    && Candidate(tables, k, last)
    && forall i :: Candidate(tables, i, last) ==>
         || FreeCount(tables[k].seats) < FreeCount(tables[i].seats)
         || (FreeCount(tables[k].seats) == FreeCount(tables[i].seats) && k <= i)
  }

  lemma PreferredIsCandidate(tables: seq<Table>, k: int, last: int)
    ensures Preferred(tables, k, last) ==> 0 <= k < |tables| && k != last && !tables[k].running
  {
  }

  /** What happens at the desk that was left does not matter to the search. */
  lemma SameSearch(before: seq<Table>, after: seq<Table>, last: int)
    requires |before| == |after| && forall i :: 0 <= i < |before| && i != last ==> before[i] == after[i]
    ensures forall i :: Candidate(after, i, last) <==> Candidate(before, i, last)
    ensures forall i :: Preferred(after, i, last) <==> Preferred(before, i, last)
  {
  }

  /** There is just one desk to sit at, if there is any. */
  lemma PreferredOnce(tables: seq<Table>, j: int, k: int, last: int)
    requires Preferred(tables, j, last) && Preferred(tables, k, last)
    ensures j == k
  {
  }
}
