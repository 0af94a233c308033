/** The links of the on-duty pharmacy card: calling, WhatsApp and the map
    search for the pharmacy's name. */
module PharmacyCard {

  import opened Schema
  import opened Text

  const TelPrefix := "tel:"
  const WhatsAppPrefix := "https://wa.me/"
  const MapPrefix := "https://www.google.com/maps/search/?api=1&query="

  /** `whatsAppNumber`: `contact2` without one leading '+'. */
  function WhatsAppNumber(contact2: string): (r: string)
    ensures StartsWith(contact2, "+") ==> r == contact2[1..]
    ensures !StartsWith(contact2, "+") ==> r == contact2
    ensures |r| <= |contact2| <= |r| + 1
  {
    if StartsWith(contact2, "+") then contact2[1..] else contact2
  }

  /** Putting the removed '+' back gives `contact2` again. */
  lemma WhatsAppNumberRestores(contact2: string)
    ensures (if StartsWith(contact2, "+") then "+" else "") + WhatsAppNumber(contact2) == contact2
  {
    if StartsWith(contact2, "+") {
      assert contact2 == [contact2[0]] + contact2[1..];
    }
  }

  /** Only one '+' goes: a number given as "++229..." keeps its second one. */
  lemma WhatsAppNumberStripsOnce()
    ensures WhatsAppNumber("++229") == "+229"
  {
    assert StartsWith("++229", "+");
    assert "++229"[1..] == "+229";
  }

  /** The URLs the card links to; `encode` is `encodeURIComponent`. */
  datatype Links = Links(title: string, location: string, call: string, whatsApp: string)

  function MapUrl(nom: string, encode: string -> string): string {
    MapPrefix + encode("pharmacie " + nom)
  }

  /** `PharmacyCard`: both the title and the address link to the map search. */
  function CardLinks(p: Pharmacy, encode: string -> string): (r: Links)
    ensures r.title == r.location == MapUrl(p.nom, encode)
    ensures r.call == TelPrefix + p.contact1
    ensures r.whatsApp == WhatsAppPrefix + WhatsAppNumber(p.contact2)
  {
    var mapUrl := MapUrl(p.nom, encode);
    Links(mapUrl, mapUrl, TelPrefix + p.contact1, WhatsAppPrefix + WhatsAppNumber(p.contact2))
  }

  lemma PrefixCancels(p: string, a: string, b: string)
    requires p + a == p + b
    ensures a == b
  {
    assert a == (p + a)[|p|..];
    assert b == (p + b)[|p|..];
  }

  /** Each link determines its input: the call link gives back `contact1`,
      the WhatsApp link the number, and — when the encoding is injective —
      the map link the pharmacy name. */
  lemma CardLinksDetermineInputs(p: Pharmacy, q: Pharmacy, encode: string -> string)
    requires forall s, t :: encode(s) == encode(t) ==> s == t
    ensures CardLinks(p, encode).call == CardLinks(q, encode).call ==> p.contact1 == q.contact1
    ensures CardLinks(p, encode).whatsApp == CardLinks(q, encode).whatsApp
            ==> WhatsAppNumber(p.contact2) == WhatsAppNumber(q.contact2)
    ensures CardLinks(p, encode).title == CardLinks(q, encode).title ==> p.nom == q.nom
  {
    if CardLinks(p, encode).call == CardLinks(q, encode).call {
      PrefixCancels(TelPrefix, p.contact1, q.contact1);
    }
    if CardLinks(p, encode).whatsApp == CardLinks(q, encode).whatsApp {
      PrefixCancels(WhatsAppPrefix, WhatsAppNumber(p.contact2), WhatsAppNumber(q.contact2));
    }
    if CardLinks(p, encode).title == CardLinks(q, encode).title {
      PrefixCancels(MapPrefix, encode("pharmacie " + p.nom), encode("pharmacie " + q.nom));
      PrefixCancels("pharmacie ", p.nom, q.nom);
    }
  }
}
