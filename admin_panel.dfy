/**
 * The admin panel: a code gate, then a form that publishes ads and a list
 * from which ads are deleted by id.
 */
module AdminPanel {
  import opened Text
  import opened Lists

  /** The maker's secret code. */
  const AdminCode: string := "AliTech2014"

  /** The ad form; `country` is carried along into the stored ad by the spread. */
  datatype AdForm = AdForm(title: string, content: string, imageUrl: string, country: string)

  /** A published ad: the form's fields and the id given at publication. */
  datatype Ad = Ad(id: string, title: string, content: string, imageUrl: string, country: string)

  /** The form as it is first shown and after every publication. */
  const EmptyForm: AdForm := AdForm("", "", "", "LB")

  /** The ad `{ ...newAd, id: Date.now().toString() }`. */
  function Publish(form: AdForm, now: nat): (ad: Ad)
    ensures ad.id == NatToString(now) && AllDigits(ad.id)
    ensures (ad.title, ad.content, ad.imageUrl, ad.country) == (form.title, form.content, form.imageUrl, form.country)
  {
    Ad(NatToString(now), form.title, form.content, form.imageUrl, form.country)
  }

  /** The test `a.id !== id` of `removeAd`. */
  function OtherId(id: string): Ad -> bool {
    (a: Ad) => a.id != id
  }

  /** `ads.filter(a => a.id !== id)`. */
  function RemoveById(ads: seq<Ad>, id: string): (r: seq<Ad>)
    ensures forall a :: a in r <==> a in ads && a.id != id
  {
    Filter(ads, OtherId(id))
  }

  /** Removing keeps the remaining ads in their order: it distributes over any split of the list. */
  lemma RemoveKeepsOrder(a: seq<Ad>, b: seq<Ad>, id: string)
    ensures RemoveById(a + b, id) == RemoveById(a, id) + RemoveById(b, id)
  {
    FilterConcat(a, b, OtherId(id));
  }

  /** Removing an id that no ad has leaves the list exactly as it was. */
  lemma RemoveAbsentIdKeepsAll(ads: seq<Ad>, id: string)
    requires forall a :: a in ads ==> a.id != id
    ensures RemoveById(ads, id) == ads
  {
    FilterKeepsAll(ads, OtherId(id));
  }

  /** Publishing and then removing the new ad's id gives back the earlier list, when no earlier ad had that id. */
  lemma RemoveUndoesPublish(ads: seq<Ad>, form: AdForm, now: nat)
    requires forall a :: a in ads ==> a.id != NatToString(now)
    ensures RemoveById(ads + [Publish(form, now)], NatToString(now)) == ads
  {
    RemoveKeepsOrder(ads, [Publish(form, now)], NatToString(now));
    RemoveAbsentIdKeepsAll(ads, NatToString(now));
    assert RemoveById([Publish(form, now)], NatToString(now)) == [];
  }

  class AdminScreen {
    var isAdmin: bool
    var code: string
    var form: AdForm
    var ads: seq<Ad>

    /** The panel opens locked, with an empty code and form, on the stored ads. */
    constructor (stored: seq<Ad>)
      ensures !isAdmin && code == "" && form == EmptyForm && ads == stored
    {
      isAdmin, code, form, ads := false, "", EmptyForm, stored;
    }

    method TypeCode(text: string)
      modifies this
      ensures code == text && isAdmin == old(isAdmin) && form == old(form) && ads == old(ads)
    {
      code := text;
    }

    method EditForm(f: AdForm)
      modifies this
      ensures form == f && isAdmin == old(isAdmin) && code == old(code) && ads == old(ads)
    {
      form := f;
    }

    /** `handleLogin`: the panel unlocks only on the exact code; a wrong code changes nothing. */
    method Login()
      modifies this
      ensures isAdmin <==> old(isAdmin) || old(code) == AdminCode
      ensures code == old(code) && form == old(form) && ads == old(ads)
    {
      if code == AdminCode {
        isAdmin := true;
      }
    }

    /** `handleAddAd`: the ad is appended after every earlier one and the form is reset. */
    method AddAd(now: nat)
      modifies this
      ensures ads == old(ads) + [Publish(old(form), now)]
      ensures form == EmptyForm
      ensures isAdmin == old(isAdmin) && code == old(code)
    {
      ads := ads + [Publish(form, now)];
      form := EmptyForm;
    }

    /** `removeAd(id)`: every ad with that id goes; the rest stay in order. */
    method RemoveAd(id: string)
      modifies this
      ensures ads == RemoveById(old(ads), id)
      ensures isAdmin == old(isAdmin) && code == old(code) && form == old(form)
    {
      ads := Filter(ads, OtherId(id));
    }

    /** The logout button locks the panel again. */
    method Logout()
      modifies this
      ensures !isAdmin
      ensures code == old(code) && form == old(form) && ads == old(ads)
    {
      isAdmin := false;
    }
  }
}
