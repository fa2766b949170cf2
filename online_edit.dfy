/**
 * The online private tutoring edit page: the program's text attributes, its
 * `sessionType` list (name and price per row), the image, and Save.  A row
 * edit changes the entry object in place, an entry shared with the record
 * the page was opened with, and stores the copied list back under
 * `sessionType`.  The endpoint has a doubled slash, kept as written.
 */
module OnlineTutoringEdit {
  import opened Wrappers
  import opened JsValues
  import opened Seqs
  import opened ProgramEdit

  const Endpoint := "https://southlakebackend.onrender.com/api//updateOnlinePrivateTutoring/"

  /** The names of the page's text areas. */
  const EditableNames: set<string> := {"programName", "price", "slotsAvailable", "slotsComplete", "description"}

  class EditPage {
    /** The heading: the name the page was opened with. */
    const heading: JsValue
    /** The record's attributes; `sessionType` is kept apart, as it holds shared entries. */
    var program: JsObject
    var sessionType: seq<PricedOption>
    var imageChosen: bool
    var isLoading: bool

    predicate Valid()
      reads this
    {
      Distinct(sessionType)
    }

    /** The record as it would be sent: the attributes with the current list. */
    function Record(): JsObject
      reads this, set o | o in sessionType
    {
      SetField(program, "sessionType", ListValue(sessionType, "name"))
    }

    /** The page opened on a record: a shallow copy, sharing the list's entries. */
    constructor (programData: JsObject, entries: seq<PricedOption>)
      requires Distinct(entries)
      ensures Valid()
      ensures heading == Get(programData, "programName")
      ensures program == programData && sessionType == entries
      ensures !imageChosen && !isLoading
    {
      heading := Get(programData, "programName");
      program := programData;
      sessionType := entries;
      imageChosen := false;
      isLoading := false;
    }

    /** `handleInputChange`: the named attribute now holds the typed text; nothing else changes. */
    method InputChange(name: string, value: string)
      requires name in EditableNames
      modifies this
      ensures program == SetField(old(program), name, JStr(value))
      ensures sessionType == old(sessionType)
      ensures imageChosen == old(imageChosen) && isLoading == old(isLoading)
    {
      program := SetField(program, name, JStr(value));
    }

    /**
     * `handleSessionTypeChange`: row `index` gets the new text in place; the
     * list keeps its entries and the other rows their texts.
     */
    method EditOption(index: nat, field: OptionField, value: string)
      requires Valid() && index < |sessionType|
      modifies this, sessionType[index]
      ensures Valid()
      ensures sessionType == old(sessionType)
      ensures Pairs(sessionType) == old(Pairs(sessionType))[index := SetOption(old(Pairs(sessionType))[index], field, value)]
      ensures program == old(program) && imageChosen == old(imageChosen) && isLoading == old(isLoading)
    {
      var updated := sessionType;
      var entry := updated[index];
      match field {
        case NameField => entry.name := value;
        case PriceField => entry.price := value;
      }
      sessionType := updated;
    }

    /** `handleAddSessionType`: a new empty row at the end; the earlier rows are unchanged. */
    method AddOption()
      requires Valid()
      modifies this
      ensures Valid()
      ensures |sessionType| == |old(sessionType)| + 1
      ensures sessionType[..|old(sessionType)|] == old(sessionType)
      ensures fresh(sessionType[|sessionType| - 1])
      ensures Pairs(sessionType) == old(Pairs(sessionType)) + [("", "")]
      ensures program == old(program) && imageChosen == old(imageChosen) && isLoading == old(isLoading)
    {
      var entry := new PricedOption("", "");
      sessionType := sessionType + [entry];
    }

    /** `handleRemoveSessionType`: exactly row `index` is gone; the others keep their order. */
    method RemoveOption(index: nat)
      requires Valid() && index < |sessionType|
      modifies this
      ensures Valid()
      ensures sessionType == RemoveAt(old(sessionType), index)
      ensures Pairs(sessionType) == RemoveAt(old(Pairs(sessionType)), index)
      ensures program == old(program) && imageChosen == old(imageChosen) && isLoading == old(isLoading)
    {
      ghost var before := Pairs(sessionType);
      RemoveAtSpec(sessionType, index);
      RemoveAtSpec(before, index);
      sessionType := RemoveAt(sessionType, index);
    }

    /** The file input: a file is chosen or the choice is cleared. */
    method ChooseFile(chosen: bool)
      modifies this
      ensures imageChosen == chosen
      ensures program == old(program) && sessionType == old(sessionType) && isLoading == old(isLoading)
    {
      imageChosen := chosen;
    }

    /**
     * `handleSave`: upload the chosen file (`uploaded` is its URL, `None`
     * when the upload fails), then PUT the record with the resulting image
     * to the endpoint addressed by the record's id.  `putOk` is the PUT's
     * outcome: on success the page navigates back; either way the edits stay
     * and `isLoading` ends false.
     */
    method Save(uploaded: Option<string>, putOk: bool) returns (request: Request, navigatedBack: bool)
      modifies this
      ensures request == SaveRequest(Endpoint, "id", old(Record()), old(imageChosen), uploaded)
      ensures navigatedBack == putOk
      ensures program == old(program) && sessionType == old(sessionType)
      ensures imageChosen == old(imageChosen) && !isLoading
    {
      var record := Record();
      var imageUrl := Get(record, "image");
      if imageChosen {
        isLoading := true;
        if uploaded.Some? {
          imageUrl := JStr(uploaded.value);
        } else {
          isLoading := false;
        }
      }
      var updatedProgram := SavePayload(record, imageUrl);
      isLoading := true;
      request := Put(Endpoint + ToString(Get(record, "id")), updatedProgram);
      if putOk {
        navigatedBack := true;
      } else {
        isLoading := false;
        navigatedBack := false;
      }
      isLoading := false;
    }
  }
}
