/** What a stay costs and what its bill charges for it: the totals of the stored nights, the prices
    kept or found for new dates, and the room charges after a change of stay. */
module Folio {
  import opened Tables

  function SumSelling(nights: seq<Night>): int {
    if nights == [] then 0 else SumSelling(nights[..|nights| - 1]) + nights[|nights| - 1].selling
  }

  function SumBase(nights: seq<Night>): int {
    if nights == [] then 0 else SumBase(nights[..|nights| - 1]) + nights[|nights| - 1].base
  }

  function SumTax(nights: seq<Night>): int {
    if nights == [] then 0 else SumTax(nights[..|nights| - 1]) + nights[|nights| - 1].tax
  }

  function TotalsOf(nights: seq<Night>, rooms: int): Totals {
    var amount, taxes := rooms * SumSelling(nights), rooms * SumTax(nights);
    Totals(amount, rooms * SumBase(nights), taxes, amount - taxes)
  }

  method TotalsFromNights(nights: seq<Night>, rooms: int) returns (t: Totals)
    ensures t == TotalsOf(nights, rooms)
  {
    var amount, base, taxes := 0, 0, 0;
    for i := 0 to |nights|
      invariant amount == rooms * SumSelling(nights[..i])
      invariant base == rooms * SumBase(nights[..i])
      invariant taxes == rooms * SumTax(nights[..i])
    {
      assert nights[..i + 1][..i] == nights[..i];
      amount := amount + nights[i].selling * rooms;
      base := base + nights[i].base * rooms;
      taxes := taxes + nights[i].tax * rooms;
    }
    assert nights[..|nights|] == nights;
    return Totals(amount, base, taxes, amount - taxes);
  }

  /** The stored nights are one row per date from the arrival on. */
  predicate Dated(nights: seq<Night>, checkin: Date) {
    forall i :: 0 <= i < |nights| ==> nights[i].date == checkin + i
  }

  predicate InStay(checkin: Date, nights: seq<Night>, d: Date) {
    checkin <= d < checkin + |nights|
  }

  function Price(checkin: Date, nights: seq<Night>, d: Date): int
    requires InStay(checkin, nights, d)
  {
    nights[d - checkin].selling
  }

  /** Prices for new dates: a night of the old stay keeps its row, any other takes the fresh price. */
  function Quoted(b: Booking, checkin: Date, quote: seq<Night>): seq<Night> {
    seq(|quote|, i requires 0 <= i < |quote| =>
      if InStay(b.checkin, b.nights, checkin + i) then b.nights[checkin + i - b.checkin]
      else quote[i].(date := checkin + i))
  }

  /** quoteAmendedNights: quote is what the pricer answers for each date it would be asked about. */
  method QuoteAmendedNights(b: Booking, checkin: Date, quote: seq<Night>) returns (nights: seq<Night>)
    ensures nights == Quoted(b, checkin, quote)
  {
    nights := [];
    for i := 0 to |quote|
      invariant nights == Quoted(b, checkin, quote)[..i]
    {
      var d := checkin + i;
      if InStay(b.checkin, b.nights, d) {
        nights := nights + [b.nights[d - b.checkin]];
      } else {
        nights := nights + [quote[i].(date := d)];
      }
    }
  }

  lemma {:induction false} QuotedIsDated(b: Booking, checkin: Date, quote: seq<Night>)
    requires Dated(b.nights, b.checkin)
    ensures |Quoted(b, checkin, quote)| == |quote| && Dated(Quoted(b, checkin, quote), checkin)
    ensures forall d :: InStay(b.checkin, b.nights, d) && checkin <= d < checkin + |quote| ==>
              Price(checkin, Quoted(b, checkin, quote), d) == Price(b.checkin, b.nights, d)
  {
    forall d | InStay(b.checkin, b.nights, d) && checkin <= d < checkin + |quote|
      ensures Price(checkin, Quoted(b, checkin, quote), d) == Price(b.checkin, b.nights, d)
    {
      assert checkin + (d - checkin) == d;
    }
  }

  // ---- room charges ----

  /** Every live charge is for a night of the stay, at its price times the rooms, and no night has two. */
  ghost predicate ChargesAgree(charges: seq<Charge>, checkin: Date, nights: seq<Night>, rooms: int) {
    && (forall i :: 0 <= i < |charges| && !charges[i].voided ==>
          InStay(checkin, nights, charges[i].date)
          && charges[i].total == Price(checkin, nights, charges[i].date) * rooms)
    && OncePerNight(charges) && Balances(charges)
  }

  ghost predicate OncePerNight(charges: seq<Charge>) {
    forall i, j :: 0 <= i < j < |charges| && !charges[i].voided && !charges[j].voided ==>
        charges[i].date != charges[j].date
  }

  predicate Charged(charges: seq<Charge>, d: Date) {
    exists i :: 0 <= i < |charges| && !charges[i].voided && charges[i].date == d
  }

  function ChargeFor(checkin: Date, nights: seq<Night>, rooms: int, d: Date): Charge
    requires InStay(checkin, nights, d)
  {
    var total, tax := nights[d - checkin].selling * rooms, nights[d - checkin].tax * rooms;
    Charge(d, total - tax, tax, total, false)
  }

  /** A live charge that no longer matches the stay. */
  predicate Stale(c: Charge, checkin: Date, nights: seq<Night>, rooms: int) {
    !c.voided && !(InStay(checkin, nights, c.date) && c.total == Price(checkin, nights, c.date) * rooms)
  }

  function VoidIf(c: Charge, stale: bool): Charge {
    if stale then c.(voided := true) else c
  }

  function Voided(charges: seq<Charge>, checkin: Date, nights: seq<Night>, rooms: int, n: nat): seq<Charge>
    requires n <= |charges|
  {
    seq(|charges|, i requires 0 <= i < |charges| =>
      VoidIf(charges[i], i < n && Stale(charges[i], checkin, nights, rooms)))
  }

  /** A charge at the new price for each stale charge among the first n whose night is still in the stay. */
  function Reposts(charges: seq<Charge>, checkin: Date, nights: seq<Night>, rooms: int, n: nat): seq<Charge>
    requires n <= |charges|
  {
    if n == 0 then []
    else
      var rest := Reposts(charges, checkin, nights, rooms, n - 1);
      var c := charges[n - 1];
      if Stale(c, checkin, nights, rooms) && InStay(checkin, nights, c.date)
      then rest + [ChargeFor(checkin, nights, rooms, c.date)] else rest
  }

  function Reconciled(charges: seq<Charge>, checkin: Date, nights: seq<Night>, rooms: int): seq<Charge> {
    Voided(charges, checkin, nights, rooms, |charges|) + Reposts(charges, checkin, nights, rooms, |charges|)
  }

  /** The void-and-repost loop of an amendment. */
  method ReconcileCharges(charges: seq<Charge>, checkin: Date, nights: seq<Night>, rooms: int)
      returns (after: seq<Charge>)
    ensures after == Reconciled(charges, checkin, nights, rooms)
  {
    after := charges;
    assert Voided(charges, checkin, nights, rooms, 0) == charges;
    for n := 0 to |charges|
      invariant after == Voided(charges, checkin, nights, rooms, n) + Reposts(charges, checkin, nights, rooms, n)
    {
      var c := charges[n];
      assert after[n] == c;
      if !c.voided {
        var stillInStay := InStay(checkin, nights, c.date);
        if !(stillInStay && c.total == Price(checkin, nights, c.date) * rooms) {
          after := after[n := c.(voided := true)];
          if stillInStay {
            after := after + [ChargeFor(checkin, nights, rooms, c.date)];
          }
        }
      }
      assert after == Voided(charges, checkin, nights, rooms, n + 1) + Reposts(charges, checkin, nights, rooms, n + 1);
    }
  }

  ghost predicate StaleOn(charges: seq<Charge>, checkin: Date, nights: seq<Night>, rooms: int, n: nat, d: Date)
    requires n <= |charges|
  {
    exists i :: 0 <= i < n && charges[i].date == d && Stale(charges[i], checkin, nights, rooms)
  }

  /** Each repost is the right charge for its night, and stands for a stale charge of that night. */
  lemma {:induction false} RepostsFrom(charges: seq<Charge>, checkin: Date, nights: seq<Night>, rooms: int, n: nat,
                                       k: nat)
    requires n <= |charges| && k < |Reposts(charges, checkin, nights, rooms, n)|
    ensures var r := Reposts(charges, checkin, nights, rooms, n)[k];
            && InStay(checkin, nights, r.date) && r == ChargeFor(checkin, nights, rooms, r.date)
            && StaleOn(charges, checkin, nights, rooms, n, r.date)
  {
    var q := Reposts(charges, checkin, nights, rooms, n - 1);
    if k == |q| {
    } else {
      RepostsFrom(charges, checkin, nights, rooms, n - 1, k);
    }
  }

  lemma {:induction false} RepostsOnce(charges: seq<Charge>, checkin: Date, nights: seq<Night>, rooms: int, n: nat,
                                       j: nat, k: nat)
    requires n <= |charges| && OncePerNight(charges) && j < k < |Reposts(charges, checkin, nights, rooms, n)|
    ensures var r := Reposts(charges, checkin, nights, rooms, n); r[j].date != r[k].date
  {
    var q := Reposts(charges, checkin, nights, rooms, n - 1);
    if k < |q| {
      RepostsOnce(charges, checkin, nights, rooms, n - 1, j, k);
    } else {
      RepostsFrom(charges, checkin, nights, rooms, n - 1, j);
    }
  }

  /** A stale charge whose night is still in the stay is posted again. */
  lemma {:induction false} RepostsAll(charges: seq<Charge>, checkin: Date, nights: seq<Night>, rooms: int, n: nat,
                                      i: nat)
    requires i < n <= |charges| && Stale(charges[i], checkin, nights, rooms) && InStay(checkin, nights, charges[i].date)
    ensures Charged(Reposts(charges, checkin, nights, rooms, n), charges[i].date)
  {
    var q := Reposts(charges, checkin, nights, rooms, n - 1);
    var r := Reposts(charges, checkin, nights, rooms, n);
    var c := charges[n - 1];
    assert r == if Stale(c, checkin, nights, rooms) && InStay(checkin, nights, c.date)
                then q + [ChargeFor(checkin, nights, rooms, c.date)] else q;
    if i < n - 1 {
      RepostsAll(charges, checkin, nights, rooms, n - 1, i);
      var k :| 0 <= k < |q| && !q[k].voided && q[k].date == charges[i].date;
      assert r[k] == q[k];
    } else {
      assert r[|q|].date == charges[i].date;
    }
  }

  ghost predicate Balances(charges: seq<Charge>) {
    forall i :: 0 <= i < |charges| && !charges[i].voided ==> charges[i].net + charges[i].tax == charges[i].total
  }

  /** After an amendment every live charge is right, no night is charged twice, and the charged nights
      are exactly the nights charged before that are still in the stay. */
  lemma {:induction false} ReconcileAgrees(charges: seq<Charge>, checkin: Date, nights: seq<Night>, rooms: int)
    requires OncePerNight(charges) && Balances(charges)
    ensures ChargesAgree(Reconciled(charges, checkin, nights, rooms), checkin, nights, rooms)
  {
    var v := Voided(charges, checkin, nights, rooms, |charges|);
    var r := Reposts(charges, checkin, nights, rooms, |charges|);
    var all := Reconciled(charges, checkin, nights, rooms);
    assert |v| == |charges| && forall i :: 0 <= i < |v| ==>
        all[i] == VoidIf(charges[i], Stale(charges[i], checkin, nights, rooms));
    forall i, j | 0 <= i < j < |all| && !all[i].voided && !all[j].voided ensures all[i].date != all[j].date {
      if i >= |v| {
        RepostsOnce(charges, checkin, nights, rooms, |charges|, i - |v|, j - |v|);
      } else if j >= |v| {
        RepostsFrom(charges, checkin, nights, rooms, |charges|, j - |v|);
      }
    }
    forall i | 0 <= i < |all| && !all[i].voided
      ensures InStay(checkin, nights, all[i].date) && all[i].total == Price(checkin, nights, all[i].date) * rooms
              && all[i].net + all[i].tax == all[i].total
    {
      if i >= |v| {
        RepostsFrom(charges, checkin, nights, rooms, |charges|, i - |v|);
      }
    }
  }

  lemma {:induction false} ReconcileKeepsNights(charges: seq<Charge>, checkin: Date, nights: seq<Night>, rooms: int,
                                                d: Date)
    requires OncePerNight(charges)
    ensures Charged(Reconciled(charges, checkin, nights, rooms), d) <==>
              Charged(charges, d) && InStay(checkin, nights, d)
  {
    var v := Voided(charges, checkin, nights, rooms, |charges|);
    var r := Reposts(charges, checkin, nights, rooms, |charges|);
    var all := Reconciled(charges, checkin, nights, rooms);
    assert |v| == |charges| && forall i :: 0 <= i < |v| ==>
        all[i] == VoidIf(charges[i], Stale(charges[i], checkin, nights, rooms));
    if Charged(charges, d) && InStay(checkin, nights, d) {
      var i :| 0 <= i < |charges| && !charges[i].voided && charges[i].date == d;
      if Stale(charges[i], checkin, nights, rooms) {
        RepostsAll(charges, checkin, nights, rooms, |charges|, i);
        var k :| 0 <= k < |r| && !r[k].voided && r[k].date == d;
        assert all[|v| + k].date == d;
      } else {
        assert all[i] == charges[i];
      }
    }
    if Charged(all, d) {
      var i :| 0 <= i < |all| && !all[i].voided && all[i].date == d;
      if i >= |v| {
        RepostsFrom(charges, checkin, nights, rooms, |charges|, i - |v|);
        assert StaleOn(charges, checkin, nights, rooms, |charges|, d);
      }
    }
  }

  /** Shortening a stay: the live charges of the removed nights are voided. */
  function VoidFrom(charges: seq<Charge>, lo: Date, hi: Date): seq<Charge> {
    seq(|charges|, i requires 0 <= i < |charges| =>
        VoidIf(charges[i], !charges[i].voided && lo <= charges[i].date < hi))
  }

  // ---- posting a stay ----

  /** The charges once the first n nights are posted: those not on the bill already are added in date order. */
  function Posted(charges: seq<Charge>, checkin: Date, nights: seq<Night>, rooms: int, n: nat): seq<Charge>
    requires n <= |nights|
  {
    if n == 0 then charges
    else
      var before := Posted(charges, checkin, nights, rooms, n - 1);
      var d := checkin + n - 1;
      if Charged(charges, d) then before else before + [ChargeFor(checkin, nights, rooms, d)]
  }

  /** postRoomCharges: which nights are on the bill is read once, before any is posted. */
  method PostAll(charges: seq<Charge>, checkin: Date, nights: seq<Night>, rooms: int)
      returns (after: seq<Charge>, posted: nat)
    ensures after == Posted(charges, checkin, nights, rooms, |nights|)
    ensures |after| == |charges| + posted
  {
    after, posted := charges, 0;
    for n := 0 to |nights|
      invariant after == Posted(charges, checkin, nights, rooms, n) && |after| == |charges| + posted
    {
      var d := checkin + n;
      if !Charged(charges, d) {
        after := after + [ChargeFor(checkin, nights, rooms, d)];
        posted := posted + 1;
      }
    }
  }

  lemma {:induction false} PostedOne(charges: seq<Charge>, checkin: Date, nights: seq<Night>, rooms: int, d: Date)
    requires ChargesAgree(charges, checkin, nights, rooms) && InStay(checkin, nights, d) && !Charged(charges, d)
    ensures ChargesAgree(charges + [ChargeFor(checkin, nights, rooms, d)], checkin, nights, rooms)
  {
    var after := charges + [ChargeFor(checkin, nights, rooms, d)];
    forall i, j | 0 <= i < j < |after| && !after[i].voided && !after[j].voided ensures after[i].date != after[j].date {
      assert after[i] == charges[i];
      if j < |charges| { assert after[j] == charges[j]; }
    }
  }

  lemma {:induction false} ChargedOneMore(charges: seq<Charge>, c: Charge, d: Date)
    ensures Charged(charges + [c], d) <==> Charged(charges, d) || (!c.voided && c.date == d)
  {
    var after := charges + [c];
    if Charged(charges, d) {
      var i :| 0 <= i < |charges| && !charges[i].voided && charges[i].date == d;
      assert after[i] == charges[i];
    }
    assert after[|charges|] == c;
  }

  /** Posting charges exactly those nights, besides the ones charged before. */
  lemma {:induction false} PostedCharges(charges: seq<Charge>, checkin: Date, nights: seq<Night>, rooms: int, n: nat,
                                         d: Date)
    requires n <= |nights|
    ensures Charged(Posted(charges, checkin, nights, rooms, n), d) <==>
              Charged(charges, d) || checkin <= d < checkin + n
  {
    if n == 0 {
    } else {
      PostedCharges(charges, checkin, nights, rooms, n - 1, d);
      var before, e := Posted(charges, checkin, nights, rooms, n - 1), checkin + n - 1;
      ChargedOneMore(before, ChargeFor(checkin, nights, rooms, e), d);
    }
  }

  /** And it leaves a right bill. */
  lemma {:induction false} PostedAgrees(charges: seq<Charge>, checkin: Date, nights: seq<Night>, rooms: int, n: nat)
    requires n <= |nights| && ChargesAgree(charges, checkin, nights, rooms)
    ensures ChargesAgree(Posted(charges, checkin, nights, rooms, n), checkin, nights, rooms)
  {
    if n == 0 {
    } else {
      PostedAgrees(charges, checkin, nights, rooms, n - 1);
      var before, d := Posted(charges, checkin, nights, rooms, n - 1), checkin + n - 1;
      if !Charged(charges, d) {
        PostedCharges(charges, checkin, nights, rooms, n - 1, d);
        PostedOne(before, checkin, nights, rooms, d);
      }
    }
  }

  /** A bill with every night on it is posted again unchanged. */
  lemma {:induction false} PostedAgain(charges: seq<Charge>, checkin: Date, nights: seq<Night>, rooms: int, n: nat)
    requires n <= |nights| && forall d :: checkin <= d < checkin + n ==> Charged(charges, d)
    ensures Posted(charges, checkin, nights, rooms, n) == charges
  {
    if n == 0 {
    } else {
      PostedAgain(charges, checkin, nights, rooms, n - 1);
    }
  }

  // ---- the bill against the stay ----

  function LiveTotal(charges: seq<Charge>): int {
    if charges == [] then 0
    else LiveTotal(charges[..|charges| - 1]) + if charges[|charges| - 1].voided then 0 else charges[|charges| - 1].total
  }

  /** The part of the live charges that falls on the first n nights of the stay. */
  function ChargedOn(charges: seq<Charge>, d: Date): int {
    if charges == [] then 0
    else
      var c := charges[|charges| - 1];
      ChargedOn(charges[..|charges| - 1], d) + if !c.voided && c.date == d then c.total else 0
  }

  function ChargedOver(charges: seq<Charge>, lo: Date, n: nat): int {
    if n == 0 then 0 else ChargedOver(charges, lo, n - 1) + ChargedOn(charges, lo + n - 1)
  }

  lemma {:induction false} ChargedOverExtends(charges: seq<Charge>, c: Charge, lo: Date, n: nat)
    ensures ChargedOver(charges + [c], lo, n) ==
            ChargedOver(charges, lo, n) + if !c.voided && lo <= c.date < lo + n then c.total else 0
  {
    if n == 0 {
    } else {
      ChargedOverExtends(charges, c, lo, n - 1);
      assert (charges + [c])[..|charges|] == charges;
    }
  }

  lemma {:induction false} ChargedOverNothing(lo: Date, n: nat)
    ensures ChargedOver([], lo, n) == 0
  {
    if n == 0 {
    } else {
      ChargedOverNothing(lo, n - 1);
    }
  }

  /** Live charges that all fall in the stay add up night by night. */
  lemma {:induction false} LiveTotalByNight(charges: seq<Charge>, lo: Date, n: nat)
    requires forall i :: 0 <= i < |charges| && !charges[i].voided ==> lo <= charges[i].date < lo + n
    ensures LiveTotal(charges) == ChargedOver(charges, lo, n)
  {
    if charges == [] {
      ChargedOverNothing(lo, n);
    } else {
      var front := charges[..|charges| - 1];
      LiveTotalByNight(front, lo, n);
      ChargedOverExtends(front, charges[|charges| - 1], lo, n);
      assert front + [charges[|charges| - 1]] == charges;
    }
  }

  lemma {:induction false} ChargedOnOne(charges: seq<Charge>, d: Date, total: int)
    requires OncePerNight(charges)
    requires forall i :: 0 <= i < |charges| && !charges[i].voided && charges[i].date == d ==> charges[i].total == total
    ensures ChargedOn(charges, d) == if Charged(charges, d) then total else 0
  {
    if charges == [] {
    } else {
      var front := charges[..|charges| - 1];
      ChargedOnOne(front, d, total);
      var c := charges[|charges| - 1];
      if !c.voided && c.date == d {
        assert !Charged(front, d);
      } else if Charged(charges, d) {
        assert Charged(front, d);
      }
    }
  }

  lemma {:induction false} FullyChargedPrefix(charges: seq<Charge>, checkin: Date, nights: seq<Night>, rooms: int,
                                              n: nat)
    requires n <= |nights| && ChargesAgree(charges, checkin, nights, rooms)
    requires forall d :: checkin <= d < checkin + n ==> Charged(charges, d)
    ensures ChargedOver(charges, checkin, n) == rooms * SumSelling(nights[..n])
  {
    if n == 0 {
    } else {
      FullyChargedPrefix(charges, checkin, nights, rooms, n - 1);
      ChargedOnOne(charges, checkin + n - 1, Price(checkin, nights, checkin + n - 1) * rooms);
      assert nights[..n][..n - 1] == nights[..n - 1];
    }
  }

  /** However much of a stay is on its bill, posting it makes the bill the booking's amount exactly, and posting
      it twice is posting it once. */
  lemma {:induction false} PostingCompletes(charges: seq<Charge>, checkin: Date, nights: seq<Night>, rooms: int)
    requires ChargesAgree(charges, checkin, nights, rooms)
    ensures var after := Posted(charges, checkin, nights, rooms, |nights|);
            LiveTotal(after) == TotalsOf(nights, rooms).amount
            && Posted(after, checkin, nights, rooms, |nights|) == after
  {
    var after := Posted(charges, checkin, nights, rooms, |nights|);
    PostedAgrees(charges, checkin, nights, rooms, |nights|);
    forall d | InStay(checkin, nights, d) ensures Charged(after, d) {
      PostedCharges(charges, checkin, nights, rooms, |nights|, d);
    }
    PostedAgain(after, checkin, nights, rooms, |nights|);
    FullyPostedIsAmount(after, checkin, nights, rooms);
  }

  /** Once every night is posted, the room charges add up to the booking's amount exactly. */
  lemma {:induction false} FullyPostedIsAmount(charges: seq<Charge>, checkin: Date, nights: seq<Night>, rooms: int)
    requires ChargesAgree(charges, checkin, nights, rooms)
    requires forall d :: InStay(checkin, nights, d) ==> Charged(charges, d)
    ensures LiveTotal(charges) == TotalsOf(nights, rooms).amount
  {
    LiveTotalByNight(charges, checkin, |nights|);
    FullyChargedPrefix(charges, checkin, nights, rooms, |nights|);
    assert nights[..|nights|] == nights;
  }
}
