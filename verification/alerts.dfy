/** GET /stock-alerts: every material classified against two fixed limits. */
module Alerts {
  import opened Basics
  import opened Records

  /** At or below this quantity a material is critical. */
  const CriticalLimit: int := 5
  /** At or below this quantity (and above the critical limit) stock is low. */
  const LowLimit: int := 15

  datatype AlertLevel = Critique | Bas | Normal {
    /** The level as the endpoint spells it. */
    function Label(): string
    {
      match this
      case Critique => "critique"
      case Bas => "bas"
      case Normal => "normal"
    }
  }

  /** One entry of the alert list, `{"material": ..., "level": ...}`: the
      material document as stored and the level as the endpoint spells it. */
  datatype Alert = Alert(material: Material, level: string)

  /** The level of a quantity; a boundary value belongs to the stricter bucket. */
  function Level(quantite: int): (r: AlertLevel)
    ensures r == Critique <==> quantite <= CriticalLimit
    ensures r == Bas <==> CriticalLimit < quantite <= LowLimit
    ensures r == Normal <==> LowLimit < quantite
  {
    if quantite <= CriticalLimit then Critique
    else if quantite <= LowLimit then Bas
    else Normal
  }

  /** How urgent a level is: higher is more urgent. */
  function Urgency(l: AlertLevel): nat
  {
    match l
    case Critique => 2
    case Bas => 1
    case Normal => 0
  }

  /** Less stock is never less urgent. */
  lemma LevelMonotone(q1: int, q2: int)
    requires q1 <= q2
    ensures Urgency(Level(q1)) >= Urgency(Level(q2))
  {
  }

  /** The alert list: one entry per material the listing returns (the first
      `ListLimit` in store order), carrying the material unchanged. */
  method GetStockAlerts(s: Store) returns (alerts: seq<Alert>)
    ensures |alerts| == Min(|s.materials|, ListLimit)
    ensures forall i :: 0 <= i < |alerts| ==>
      alerts[i].material == s.materials[i] && alerts[i].level == Level(s.materials[i].quantite).Label()
    ensures forall i :: 0 <= i < |alerts| ==>
      (alerts[i].level == "critique" <==> s.materials[i].quantite <= CriticalLimit)
      && (alerts[i].level == "bas" <==> CriticalLimit < s.materials[i].quantite <= LowLimit)
      && (alerts[i].level == "normal" <==> LowLimit < s.materials[i].quantite)
  {
    var materials := s.materials[..Min(|s.materials|, ListLimit)];
    alerts := [];
    var k := 0;
    while k < |materials|
      invariant k <= |materials|
      invariant |alerts| == k
      invariant forall i :: 0 <= i < k ==>
        alerts[i].material == materials[i] && alerts[i].level == Level(materials[i].quantite).Label()
    {
      var material := materials[k];
      alerts := alerts + [Alert(material, Level(material.quantite).Label())];
      k := k + 1;
    }
  }
}
