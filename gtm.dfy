/**
 * The analytics helpers (src/app/lib/gtm.ts): records pushed onto the tag
 * manager's global `window.dataLayer`, which may not exist.
 */
module Gtm {
  import opened Wrappers
  import opened Validations

  datatype Ecommerce = Ecommerce(value: int, currency: string)

  datatype UserData = UserData(email: string, phoneNumber: string)

  /** A record pushed onto the data layer. */
  datatype DataLayerEntry =
    | PageviewEntry(page: string)
    | LeadEntry(ecommerce: Ecommerce, userData: UserData)
  {
    /** The record's `event` key. */
    function Event(): string
    {
      match this
      case PageviewEntry(_) => "pageview"
      case LeadEntry(_, _) => "generate_lead"
    }
  }

  /** `LeadGenerationData`: `value` and `currency` are optional. */
  datatype LeadGenerationData = LeadGenerationData(email: string, phone: string, value: Option<int>, currency: Option<string>)

  /** The global `window`, reduced to its `dataLayer` property. */
  class Window {
    var dataLayer: Option<seq<DataLayerEntry>>

    constructor (dataLayer: Option<seq<DataLayerEntry>>)
      ensures this.dataLayer == dataLayer
    {
      this.dataLayer := dataLayer;
    }
  }

  /**
   * The data layer after the guarded `window.dataLayer.push(entry)`: one more
   * record at the end when the layer exists, nothing otherwise.
   */
  function Pushed(layer: Option<seq<DataLayerEntry>>, entry: DataLayerEntry): (r: Option<seq<DataLayerEntry>>)
    ensures r.Some? <==> layer.Some?
    ensures layer.Some? ==> |r.value| == |layer.value| + 1
    ensures layer.Some? ==> r.value[..|layer.value|] == layer.value && r.value[|layer.value|] == entry
  {
    match layer
    case None => None
    case Some(entries) => Some(entries + [entry])
  }

  /**
   * The record `trackLeadGeneration` builds: defaults filled in, phone reduced
   * to digits. For an integer, `value || 0` is the value itself or 0 when absent.
   */
  function LeadRecord(data: LeadGenerationData): (r: DataLayerEntry)
    ensures r.LeadEntry? && r.Event() == "generate_lead"
    ensures r.userData.email == data.email
    ensures IsDigitString(r.userData.phoneNumber)
    ensures Digits(r.userData.phoneNumber) == Digits(data.phone)
    ensures r.ecommerce.value == data.value.GetOr(0)
    ensures r.ecommerce.currency != ""
    ensures r.ecommerce.currency == if data.currency.Some? && data.currency.value != "" then data.currency.value else "BRL"
  {
    LeadEntry(
      Ecommerce(
        if data.value.Some? && data.value.value != 0 then data.value.value else 0,
        if data.currency.Some? && data.currency.value != "" then data.currency.value else "BRL"),
      UserData(data.email, Digits(data.phone)))
  }

  /** `pageview(url)` */
  method Pageview(w: Window, url: string)
    modifies w
    ensures w.dataLayer == Pushed(old(w.dataLayer), PageviewEntry(url))
  {
    if w.dataLayer.Some? {
      w.dataLayer := Some(w.dataLayer.value + [PageviewEntry(url)]);
    }
  }

  /** `trackLeadGeneration(data)` */
  method TrackLeadGeneration(w: Window, data: LeadGenerationData)
    modifies w
    ensures w.dataLayer == Pushed(old(w.dataLayer), LeadRecord(data))
  {
    if w.dataLayer.Some? {
      var record := LeadRecord(data);
      w.dataLayer := Some(w.dataLayer.value + [record]);
    }
  }
}
