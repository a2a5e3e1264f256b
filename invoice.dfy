/** `Facture` and `LigneFacture`: an invoice owns a list of lines, and its
    total is recomputed from the lines whenever one is added or removed.
    Money (`BigDecimal` with two decimals) is an integer number of cents. */
module Invoice {
  import opened Common
  import opened Entities

  /** `TypePaiement`: only its `name()` is used. */
  datatype TypePaiement = TypePaiement(name: string)

  /** What a line's amount is computed from: the unit price (which may be
      null) and the quantity. */
  datatype Pricing = Pricing(prix: Option<int>, quantite: int)

  /** `calculerMontant`: price times quantity, or zero without a price. */
  function Amount(p: Pricing): int {
    if p.prix.Some? then p.prix.value * p.quantite else 0
  }

  /** The `reduce(BigDecimal.ZERO, BigDecimal::add)` of the line amounts. */
  function TotalOf(ps: seq<Pricing>): int
    decreases |ps|
  {
    if ps == [] then 0 else TotalOf(ps[..|ps| - 1]) + Amount(ps[|ps| - 1])
  }

  /** Appending a line adds its amount to the total. */
  lemma TotalOfAppend(ps: seq<Pricing>, p: Pricing)
    ensures TotalOf(ps + [p]) == TotalOf(ps) + Amount(p)
  {
    assert (ps + [p])[..|ps|] == ps;
  }

  /** The total of a concatenation is the sum of the totals. */
  lemma {:induction false} TotalOfConcat(a: seq<Pricing>, b: seq<Pricing>)
    ensures TotalOf(a + b) == TotalOf(a) + TotalOf(b)
    decreases |b|
  {
    if b == [] {
      assert a + b == a;
    } else {
      var b' := b[..|b| - 1];
      assert a + b == (a + b') + [b[|b| - 1]];
      TotalOfAppend(a + b', b[|b| - 1]);
      TotalOfConcat(a, b');
      TotalOfAppend(b', b[|b| - 1]);
      assert b' + [b[|b| - 1]] == b;
    }
  }

  /** Lines that are all free of negative prices and quantities add up to a
      total that is not negative. */
  lemma {:induction false} TotalOfNonNegative(ps: seq<Pricing>)
    requires forall i :: 0 <= i < |ps| ==> NonNegative(ps[i])
    ensures TotalOf(ps) >= 0
    decreases |ps|
  {
    if ps != [] {
      TotalOfNonNegative(ps[..|ps| - 1]);
      assert NonNegative(ps[|ps| - 1]);
    }
  }

  /** One more term of a running total. */
  lemma TotalOfStep(ps: seq<Pricing>, i: nat)
    requires i < |ps|
    ensures TotalOf(ps[..i + 1]) == TotalOf(ps[..i]) + Amount(ps[i])
  {
    assert ps[..i + 1][..i] == ps[..i];
  }

  /** The check `creerFacture` makes on each line: no negative unit price
      and no negative quantity; a null price passes. */
  predicate NonNegative(p: Pricing) {
    (p.prix.None? || p.prix.value >= 0) && p.quantite >= 0
  }

  class LigneFacture {
    var id: Option<int>
    var facture: Facture?
    var description: Option<string>
    var prixUnitaire: Option<int>
    var quantite: int
    /** The cached amount (`@Transient`): null until first computed. */
    var montantLigne: Option<int>

    function Price(): Pricing
      reads this`prixUnitaire, this`quantite
    {
      Pricing(prixUnitaire, quantite)
    }

    /** `new LigneFacture()`: quantity 1, unit price 0, no amount yet. */
    constructor Default()
      ensures id == None && facture == null && description == None
      ensures quantite == 1 && prixUnitaire == Some(0) && montantLigne == None
    {
      id := None;
      facture := null;
      description := None;
      quantite := 1;
      prixUnitaire := Some(0);
      montantLigne := None;
    }

    /** `new LigneFacture(facture, description, prixUnitaire, quantite)`:
        the amount is computed at once. */
    constructor (facture: Facture?, description: Option<string>, prixUnitaire: Option<int>, quantite: int)
      ensures this.id == None && this.facture == facture && this.description == description
      ensures this.prixUnitaire == prixUnitaire && this.quantite == quantite
      ensures montantLigne == Some(Amount(Pricing(prixUnitaire, quantite)))
    {
      id := None;
      this.facture := facture;
      this.description := description;
      this.prixUnitaire := prixUnitaire;
      this.quantite := quantite;
      montantLigne := Some(Amount(Pricing(prixUnitaire, quantite)));
    }

    method SetFacture(f: Facture?)
      modifies this`facture
      ensures facture == f
      ensures id == old(id) && description == old(description) && Price() == old(Price())
      ensures montantLigne == old(montantLigne)
    {
      facture := f;
    }

    /** `setPrixUnitaire`: stores the price and recomputes the amount. */
    method SetPrixUnitaire(p: Option<int>)
      modifies this
      ensures prixUnitaire == p && quantite == old(quantite)
      ensures montantLigne == Some(Amount(Price()))
      ensures id == old(id) && facture == old(facture) && description == old(description)
    {
      prixUnitaire := p;
      CalculerMontant();
    }

    /** `setQuantite`: stores the quantity and recomputes the amount. */
    method SetQuantite(q: int)
      modifies this
      ensures quantite == q && prixUnitaire == old(prixUnitaire)
      ensures montantLigne == Some(Amount(Price()))
      ensures id == old(id) && facture == old(facture) && description == old(description)
    {
      quantite := q;
      CalculerMontant();
    }

    /** `setMontantLigne`: overwrites the cached amount only. */
    method SetMontantLigne(m: Option<int>)
      modifies this`montantLigne
      ensures montantLigne == m && Price() == old(Price())
      ensures id == old(id) && facture == old(facture) && description == old(description)
    {
      montantLigne := m;
    }

    /** `calculerMontant`. */
    method CalculerMontant()
      modifies this`montantLigne
      ensures montantLigne == Some(Amount(Price())) && Price() == old(Price())
      ensures id == old(id) && facture == old(facture) && description == old(description)
    {
      if prixUnitaire.Some? {
        montantLigne := Some(prixUnitaire.value * quantite);
      } else {
        montantLigne := Some(0);
      }
    }

    /** `getMontantLigne`: recomputes first, so whatever `setMontantLigne`
        stored earlier, the result is price times quantity. */
    method GetMontantLigne() returns (m: int)
      modifies this`montantLigne
      ensures m == Amount(Price()) && montantLigne == Some(m) && Price() == old(Price())
      ensures id == old(id) && facture == old(facture) && description == old(description)
    {
      CalculerMontant();
      m := montantLigne.value;
    }
  }

  /** The pricing of each line, in list order. */
  function Priced(ls: seq<LigneFacture>): (r: seq<Pricing>)
    reads ls`prixUnitaire, ls`quantite
    ensures |r| == |ls|
    decreases |ls|
  {
    if ls == [] then [] else Priced(ls[..|ls| - 1]) + [ls[|ls| - 1].Price()]
  }

  /** Entry `i` of the pricing is line `i`'s price and quantity. */
  lemma {:induction false} PricedAt(ls: seq<LigneFacture>, i: nat)
    requires i < |ls|
    ensures Priced(ls)[i] == ls[i].Price()
    decreases |ls|
  {
    if i < |ls| - 1 {
      PricedAt(ls[..|ls| - 1], i);
    }
  }

  /** The sum of the line amounts, from the lines' current prices and
      quantities. */
  function LinesTotal(ls: seq<LigneFacture>): int
    reads ls`prixUnitaire, ls`quantite
  {
    TotalOf(Priced(ls))
  }

  /** `List.remove(Object)` on lines, which do not override `equals`: the
      first occurrence of that very object goes. */
  function RemoveFirst(ls: seq<LigneFacture>, x: LigneFacture): (r: seq<LigneFacture>)
    ensures forall y :: y in r ==> y in ls
    decreases |ls|
  {
    if ls == [] then []
    else if ls[0] == x then ls[1..]
    else [ls[0]] + RemoveFirst(ls[1..], x)
  }

  /** A line not in the list changes nothing. */
  lemma {:induction false} RemoveAbsent(ls: seq<LigneFacture>, x: LigneFacture)
    requires x !in ls
    ensures RemoveFirst(ls, x) == ls
    decreases |ls|
  {
    if ls != [] {
      RemoveAbsent(ls[1..], x);
      assert ls == [ls[0]] + ls[1..];
    }
  }

  /** The first occurrence, at `k`, is cut out and the others keep their
      order. */
  lemma {:induction false} RemoveFirstAt(ls: seq<LigneFacture>, x: LigneFacture, k: nat)
    requires k < |ls| && ls[k] == x && x !in ls[..k]
    ensures RemoveFirst(ls, x) == ls[..k] + ls[k + 1..]
    decreases k
  {
    if k == 0 {
      assert ls[..0] + ls[1..] == ls[1..];
    } else {
      assert ls[0] == ls[..k][0];
      assert ls[1..][..k - 1] == ls[1..k];
      RemoveFirstAt(ls[1..], x, k - 1);
      assert ls[..k] == [ls[0]] + ls[1..k];
      assert ls[1..][k..] == ls[k + 1..];
    }
  }

  /** The position of the first occurrence of a line. */
  function FirstIndex(ls: seq<LigneFacture>, x: LigneFacture): (k: nat)
    requires x in ls
    ensures k < |ls| && ls[k] == x && x !in ls[..k]
  {
    if ls[0] == x then 0
    else
      var k := 1 + FirstIndex(ls[1..], x);
      assert ls[..k] == [ls[0]] + ls[1..][..k - 1];
      k
  }

  /** Dropping entry `k` of a pricing takes its amount off the total. */
  lemma TotalOfRemoveAt(ps: seq<Pricing>, k: nat)
    requires k < |ps|
    ensures TotalOf(ps[..k] + ps[k + 1..]) == TotalOf(ps) - Amount(ps[k])
  {
    assert ps[..k + 1] + ps[k + 1..] == ps;
    TotalOfConcat(ps[..k + 1], ps[k + 1..]);
    TotalOfStep(ps, k);
    TotalOfConcat(ps[..k], ps[k + 1..]);
  }

  /** Appending a line adds its amount to the total. */
  lemma AppendTotal(ls: seq<LigneFacture>, x: LigneFacture)
    ensures LinesTotal(ls + [x]) == LinesTotal(ls) + Amount(x.Price())
  {
    assert (ls + [x])[..|ls|] == ls;
    TotalOfAppend(Priced(ls), x.Price());
  }

  /** Removing a line that is in the list takes exactly its amount off the
      total. */
  lemma RemoveFirstTotal(ls: seq<LigneFacture>, x: LigneFacture)
    requires x in ls
    ensures LinesTotal(RemoveFirst(ls, x)) == LinesTotal(ls) - Amount(x.Price())
  {
    var k := FirstIndex(ls, x);
    RemoveFirstAt(ls, x, k);
    RemoveAtTotal(ls, k);
  }

  /** Cutting line `k` out of the list takes exactly its amount off the
      total. */
  lemma RemoveAtTotal(ls: seq<LigneFacture>, k: nat)
    requires k < |ls|
    ensures LinesTotal(ls[..k] + ls[k + 1..]) == LinesTotal(ls) - Amount(ls[k].Price())
  {
    var ps := Priced(ls);
    forall j | 0 <= j < |ls| ensures ls[j].prixUnitaire == ps[j].prix && ls[j].quantite == ps[j].quantite {
      PricedAt(ls, j);
    }
    var rest, qs := ls[..k] + ls[k + 1..], ps[..k] + ps[k + 1..];
    forall j | 0 <= j < |rest| ensures rest[j].prixUnitaire == qs[j].prix && rest[j].quantite == qs[j].quantite {
      if j < k {
        assert rest[j] == ls[j] && qs[j] == ps[j];
      } else {
        assert rest[j] == ls[j + 1] && qs[j] == ps[j + 1];
      }
    }
    PricedIs(rest, qs);
    TotalOfRemoveAt(ps, k);
  }

  /** Lines whose prices and quantities are, entry by entry, `ps` have
      pricing `ps`. */
  lemma {:induction false} PricedIs(ls: seq<LigneFacture>, ps: seq<Pricing>)
    requires |ls| == |ps| && forall i :: 0 <= i < |ls| ==> ls[i].prixUnitaire == ps[i].prix && ls[i].quantite == ps[i].quantite
    ensures Priced(ls) == ps
    decreases |ls|
  {
    if ls != [] {
      PricedIs(ls[..|ls| - 1], ps[..|ps| - 1]);
      assert ps == ps[..|ps| - 1] + [ps[|ps| - 1]];
    }
  }

  class Facture {
    var id: Option<int>
    var patient: Option<Patient>
    var rendezVous: Option<RendezVous>
    var dateFacturation: Option<int>
    var montantTotal: Option<int>
    var estPayee: bool
    var typePaiement: Option<TypePaiement>
    var lignes: seq<LigneFacture>

    /** `new Facture()`, dated `today`: total 0, unpaid, no lines. */
    constructor (today: int)
      ensures id == None && patient == None && rendezVous == None && dateFacturation == Some(today)
      ensures montantTotal == Some(0) && !estPayee && typePaiement == None && lignes == []
    {
      id := None;
      patient := None;
      rendezVous := None;
      dateFacturation := Some(today);
      montantTotal := Some(0);
      estPayee := false;
      typePaiement := None;
      lignes := [];
    }

    /** `new Facture(patient, rendezVous)`, dated `today`. */
    constructor ForAppointment(patient: Option<Patient>, rendezVous: Option<RendezVous>, today: int)
      ensures id == None && this.patient == patient && this.rendezVous == rendezVous
      ensures dateFacturation == Some(today)
      ensures montantTotal == Some(0) && !estPayee && typePaiement == None && lignes == []
    {
      id := None;
      this.patient := patient;
      this.rendezVous := rendezVous;
      dateFacturation := Some(today);
      montantTotal := Some(0);
      estPayee := false;
      typePaiement := None;
      lignes := [];
    }

    /** `calculerMontantTotal`: the total becomes the sum of the lines'
        amounts, each obtained through `getMontantLigne` (which caches it in
        the line); the empty sum is 0.  Only the total and the lines' cached
        amounts change. */
    method CalculerMontantTotal()
      modifies this`montantTotal, lignes`montantLigne
      ensures montantTotal == Some(LinesTotal(lignes))
      ensures forall j :: 0 <= j < |lignes| ==> lignes[j].montantLigne == Some(Amount(lignes[j].Price()))
    {
      ghost var ps := Priced(lignes);
      var total := 0;
      for i := 0 to |lignes|
        invariant forall j :: 0 <= j < i ==> lignes[j].montantLigne == Some(Amount(lignes[j].Price()))
        invariant total == TotalOf(ps[..i])
      {
        PricedAt(lignes, i);
        var m := lignes[i].GetMontantLigne();
        TotalOfStep(ps, i);
        total := total + m;
      }
      assert ps[..|lignes|] == ps;
      montantTotal := Some(total);
    }

    /** `addLigne`: the line goes at the end, points back to this invoice,
        and the total is recomputed over the new list (by `AppendTotal`, the
        old total plus the new line's amount).  No price or quantity
        changes. */
    method AddLigne(ligne: LigneFacture)
      modifies this`lignes, this`montantTotal, lignes`montantLigne, ligne`facture, ligne`montantLigne
      ensures lignes == old(lignes) + [ligne] && ligne.facture == this
      ensures montantTotal == Some(LinesTotal(lignes))
    {
      lignes := lignes + [ligne];
      ligne.SetFacture(this);
      CalculerMontantTotal();
    }

    /** `removeLigne`: the first occurrence of the line leaves the list, its
        back-reference is cleared, and the total is recomputed over what is
        left (by `RemoveFirstTotal`, the old total minus that line's amount;
        a line not in the list leaves the list as it was).  No price or
        quantity changes. */
    method RemoveLigne(ligne: LigneFacture)
      modifies this`lignes, this`montantTotal, lignes`montantLigne, ligne`facture
      ensures lignes == RemoveFirst(old(lignes), ligne) && ligne.facture == null
      ensures ligne !in old(lignes) ==> lignes == old(lignes)
      ensures montantTotal == Some(LinesTotal(lignes))
    {
      if ligne !in lignes {
        RemoveAbsent(lignes, ligne);
      }
      lignes := RemoveFirst(lignes, ligne);
      ligne.SetFacture(null);
      assert forall i :: 0 <= i < |lignes| ==> lignes[i] in old(lignes);
      CalculerMontantTotal();
    }
  }
}
