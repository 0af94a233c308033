/** The card a client sees for one of their requests: a title, an optional
    "your search" subtitle, one thumbnail per photo and a fixed badge. */
module SearchCard {

  import opened Wrappers
  import opened Schema
  import opened Forms
  import SearchActions

  const PendingBadge := "En attente"

  /** One rendered photo: its URL and its 1-based position in the alt text. */
  datatype Thumbnail = Thumbnail(src: string, number: nat)

  datatype Card = Card(title: string, subtitle: string, badge: string, thumbnails: seq<Thumbnail>)

  /** `hasPhotos`: the row has a non-null, non-empty photo list. */
  predicate HasPhotos(s: SearchRow) {
    s.photoUrls.Some? && |s.photoUrls.value| > 0
  }

  /** The card description: the client's own wording, quoted, when it is
      non-empty and the stored name differs from it. */
  function Subtitle(s: SearchRow): (r: string)
    ensures r != "" <==> Truthy(s.originalProductName) && s.originalProductName.value != s.productName
    ensures r != "" ==> r == "Votre recherche : \"" + s.originalProductName.value + "\""
  {
    if Truthy(s.originalProductName) && s.originalProductName.value != s.productName
    then "Votre recherche : \"" + s.originalProductName.value + "\""
    else ""
  }

  /** `photo_urls.map(...)`, numbering from 1. */
  function Thumbs(urls: seq<string>, first: nat): (r: seq<Thumbnail>)
    ensures |r| == |urls|
    ensures forall i :: 0 <= i < |urls| ==> r[i] == Thumbnail(urls[i], first + i)
    decreases |urls|
  {
    if urls == [] then [] else [Thumbnail(urls[0], first)] + Thumbs(urls[1..], first + 1)
  }

  function Thumbnails(s: SearchRow): (r: seq<Thumbnail>)
    ensures |r| > 0 <==> HasPhotos(s)
    ensures HasPhotos(s) ==> |r| == |s.photoUrls.value|
                             && forall i :: 0 <= i < |r| ==> r[i] == Thumbnail(s.photoUrls.value[i], i + 1)
  {
    if HasPhotos(s) then Thumbs(s.photoUrls.value, 1) else []
  }

  /** `SearchCard`: the title is the stored product name and the badge is
      always pending. */
  function View(s: SearchRow): (r: Card)
    ensures r.title == s.productName && r.badge == PendingBadge
    ensures r.subtitle == Subtitle(s) && r.thumbnails == Thumbnails(s)
  {
    Card(s.productName, Subtitle(s), PendingBadge, Thumbnails(s))
  }

  /** The card of a request the search action has just stored: titled with
      the normalised name, subtitled only when the client typed a non-empty
      name the normaliser changed, with one thumbnail per uploaded photo. */
  lemma CardOfCreatedSearch(fd: FormData, upload: (nat, File) -> Result<string, string>,
                            normalise: (string, seq<string>) -> Result<string, string>, id: int, now: int)
    requires SearchActions.CreateSearch(true, fd, upload, normalise, None, id, now).1.Some?
    ensures var v := SearchActions.Validate(fd).value;
            var urls := SearchActions.UploadAll(v.images, upload).value;
            var name := normalise(v.productName.GetOr(""), urls).value;
            var card := View(SearchActions.CreateSearch(true, fd, upload, normalise, None, id, now).1.value);
            && card.title == name
            && (card.subtitle != "" <==> v.productName.Some? && v.productName.value != "" && v.productName.value != name)
            && |card.thumbnails| == |v.images|
  {
  }
}
