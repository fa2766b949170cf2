/**
 * What the program edit pages share: the priced sub-options some programs
 * list (session types, lesson lengths), the image that ends up in the saved
 * record, and the update request the Save button sends.
 *
 * Each page keeps a shallow copy of the record it was opened with.  The
 * sub-option entries are objects that the copy shares with the original and
 * that the edit handlers change in place, so they are modelled as a class;
 * everything else in the record is a value.
 */
module ProgramEdit {
  import opened Wrappers
  import opened JsValues

  /**
   * One priced sub-option: `{ name, price }`, or `{ hours, price }` on the
   * in-person page, where `name` holds the hours text.
   */
  class PricedOption {
    var name: string
    var price: string

    constructor (name: string, price: string)
      ensures this.name == name && this.price == price
    {
      this.name := name;
      this.price := price;
    }
  }

  /** Which input of a sub-option row changed. */
  datatype OptionField = NameField | PriceField

  /** The texts of a list of sub-options, in order. */
  function Pairs(list: seq<PricedOption>): (ps: seq<(string, string)>)
    reads set o | o in list
    ensures |ps| == |list|
    ensures forall i :: 0 <= i < |list| ==> ps[i] == (list[i].name, list[i].price)
  {
    seq(|list|, i reads set o | o in list requires 0 <= i < |list| => (list[i].name, list[i].price))
  }

  /** A sub-option's texts after one of its inputs changed. */
  function SetOption(p: (string, string), field: OptionField, value: string): (r: (string, string))
    ensures field == NameField ==> r.0 == value && r.1 == p.1
    ensures field == PriceField ==> r.0 == p.0 && r.1 == value
  {
    match field
    case NameField => (value, p.1)
    case PriceField => (p.0, value)
  }

  /** No entry object occurs twice in the list, as in a list the backend sent. */
  predicate Distinct(list: seq<PricedOption>)
  {
    forall i, j :: 0 <= i < j < |list| ==> list[i] != list[j]
  }

  /** The list as the saved record carries it: an array of `{ <nameKey>, price }` objects. */
  function ListValue(list: seq<PricedOption>, nameKey: string): JsValue
    reads set o | o in list
  {
    var ps := Pairs(list);
    JArray(seq(|ps|, i requires 0 <= i < |ps| => JObject([(nameKey, JStr(ps[i].0)), ("price", JStr(ps[i].1))])))
  }

  /**
   * `handleImageUpload`: the uploaded file's URL when a file was chosen and
   * its upload succeeded (`uploaded` is `None` when it failed), otherwise the
   * record's current image.
   */
  function ImageAfterUpload(current: JsValue, fileChosen: bool, uploaded: Option<string>): (r: JsValue)
    ensures fileChosen && uploaded.Some? ==> r == JStr(uploaded.value)
    ensures !fileChosen || uploaded.None? ==> r == current
  {
    if fileChosen && uploaded.Some? then JStr(uploaded.value) else current
  }

  /** The body of the update request: `{ ...program, image: imageUrl }`. */
  function SavePayload(record: JsObject, image: JsValue): (r: JsObject)
    ensures Lookup(r, "image") == Some(image)
    ensures forall k :: k != "image" ==> Lookup(r, k) == Lookup(record, k)
  {
    SetField(record, "image", image)
  }

  /** An HTTP request with a JSON body: the address and the body. */
  datatype Request = Put(url: string, body: JsObject) | Post(url: string, body: JsObject)

  /**
   * The request Save sends: the page's endpoint followed by the record's
   * `key` attribute (its id, or its name on the single-program page), and
   * the record with the image after the upload.
   */
  function SaveRequest(endpoint: string, key: string, record: JsObject, fileChosen: bool, uploaded: Option<string>): Request
  {
    Put(endpoint + ToString(Get(record, key)),
        SavePayload(record, ImageAfterUpload(Get(record, "image"), fileChosen, uploaded)))
  }

  /**
   * The saved record is the edited record with only the image replaced: it
   * has the same keys in the same order when the record has an image, keeps
   * keys distinct, and its image is the uploaded URL, or the current image
   * when no file was chosen or the upload failed.
   */
  lemma SaveRequestReplacesOnlyImage(endpoint: string, key: string, record: JsObject, fileChosen: bool, uploaded: Option<string>)
    requires UniqueKeys(record)
    ensures var body := SaveRequest(endpoint, key, record, fileChosen, uploaded).body;
            UniqueKeys(body) &&
            ("image" in Keys(record) ==> Keys(body) == Keys(record)) &&
            (forall k :: k != "image" ==> Lookup(body, k) == Lookup(record, k)) &&
            Get(body, "image") == (if fileChosen && uploaded.Some? then JStr(uploaded.value) else Get(record, "image"))
  {
    var image := ImageAfterUpload(Get(record, "image"), fileChosen, uploaded);
    SetFieldKeys(record, "image", image);
    SetFieldUnique(record, "image", image);
  }
}
