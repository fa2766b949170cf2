/**
 * The music classes edit page: the program's text attributes, its
 * `lessonLength` list (name and price per row), the image, and Save.  A row
 * edit stores the typed text without its leading whitespace (trailing
 * whitespace is kept), changing the shared entry object in place.
 */
module MusicClassesEdit {
  import opened Strings
  import opened Wrappers
  import opened JsValues
  import opened Seqs
  import opened ProgramEdit

  const Endpoint := "https://southlakebackend.onrender.com/api/updateMusicProgram/"

  /** The names of the page's text areas. */
  const EditableNames: set<string> := {"programName", "amount", "slotsAvailable", "description"}

  class EditPage {
    /** The heading: the name the page was opened with. */
    const heading: JsValue
    /** The record's attributes; `lessonLength` is kept apart, as it holds shared entries. */
    var program: JsObject
    var lessonLength: seq<PricedOption>
    var imageChosen: bool
    var isLoading: bool

    predicate Valid()
      reads this
    {
      Distinct(lessonLength)
    }

    /** The record as it would be sent: the attributes with the current list. */
    function Record(): JsObject
      reads this, set o | o in lessonLength
    {
      SetField(program, "lessonLength", ListValue(lessonLength, "name"))
    }

    /** The page opened on a record: a shallow copy, sharing the list's entries. */
    constructor (programData: JsObject, entries: seq<PricedOption>)
      requires Distinct(entries)
      ensures Valid()
      ensures heading == Get(programData, "programName")
      ensures program == programData && lessonLength == entries
      ensures !imageChosen && !isLoading
    {
      heading := Get(programData, "programName");
      program := programData;
      lessonLength := entries;
      imageChosen := false;
      isLoading := false;
    }

    /** `handleInputChange`: the named attribute now holds the typed text; nothing else changes. */
    method InputChange(name: string, value: string)
      requires name in EditableNames
      modifies this
      ensures program == SetField(old(program), name, JStr(value))
      ensures lessonLength == old(lessonLength)
      ensures imageChosen == old(imageChosen) && isLoading == old(isLoading)
    {
      program := SetField(program, name, JStr(value));
    }

    /**
     * `handleSessionTypeChange`: row `index` gets the new text with its
     * leading whitespace removed, in place; the list keeps its entries and the
     * other rows their texts.
     */
    method EditOption(index: nat, field: OptionField, value: string)
      requires Valid() && index < |lessonLength|
      modifies this, lessonLength[index]
      ensures Valid()
      ensures lessonLength == old(lessonLength)
      ensures Pairs(lessonLength) == old(Pairs(lessonLength))[index := SetOption(old(Pairs(lessonLength))[index], field, TrimStart(value))]
      ensures program == old(program) && imageChosen == old(imageChosen) && isLoading == old(isLoading)
    {
      var updated := lessonLength;
      var entry := updated[index];
      match field {
        case NameField => entry.name := TrimStart(value);
        case PriceField => entry.price := TrimStart(value);
      }
      lessonLength := updated;
    }

    /** `handleAddSessionType`: a new empty row at the end; the earlier rows are unchanged. */
    method AddOption()
      requires Valid()
      modifies this
      ensures Valid()
      ensures |lessonLength| == |old(lessonLength)| + 1
      ensures lessonLength[..|old(lessonLength)|] == old(lessonLength)
      ensures fresh(lessonLength[|lessonLength| - 1])
      ensures Pairs(lessonLength) == old(Pairs(lessonLength)) + [("", "")]
      ensures program == old(program) && imageChosen == old(imageChosen) && isLoading == old(isLoading)
    {
      var entry := new PricedOption("", "");
      lessonLength := lessonLength + [entry];
    }

    /** `handleRemoveSessionType`: exactly row `index` is gone; the others keep their order. */
    method RemoveOption(index: nat)
      requires Valid() && index < |lessonLength|
      modifies this
      ensures Valid()
      ensures lessonLength == RemoveAt(old(lessonLength), index)
      ensures Pairs(lessonLength) == RemoveAt(old(Pairs(lessonLength)), index)
      ensures program == old(program) && imageChosen == old(imageChosen) && isLoading == old(isLoading)
    {
      ghost var before := Pairs(lessonLength);
      RemoveAtSpec(lessonLength, index);
      RemoveAtSpec(before, index);
      lessonLength := RemoveAt(lessonLength, index);
    }

    /** The file input: a file is chosen or the choice is cleared. */
    method ChooseFile(chosen: bool)
      modifies this
      ensures imageChosen == chosen
      ensures program == old(program) && lessonLength == old(lessonLength) && isLoading == old(isLoading)
    {
      imageChosen := chosen;
    }

    /**
     * `handleSave`: upload the chosen file (`uploaded` is its URL, `None`
     * when the upload fails), then PUT the record with the resulting image
     * to the endpoint addressed by the record's id.  `putOk` is the PUT's
     * outcome: on success the page navigates back; either way the edits stay
     * and `isLoading` ends false.
     */
    method Save(uploaded: Option<string>, putOk: bool) returns (request: Request, navigatedBack: bool)
      modifies this
      ensures request == SaveRequest(Endpoint, "id", old(Record()), old(imageChosen), uploaded)
      ensures navigatedBack == putOk
      ensures program == old(program) && lessonLength == old(lessonLength)
      ensures imageChosen == old(imageChosen) && !isLoading
    {
      var record := Record();
      var imageUrl := Get(record, "image");
      if imageChosen {
        isLoading := true;
        if uploaded.Some? {
          imageUrl := JStr(uploaded.value);
        } else {
          isLoading := false;
        }
      }
      var updatedProgram := SavePayload(record, imageUrl);
      isLoading := true;
      request := Put(Endpoint + ToString(Get(record, "id")), updatedProgram);
      if putOk {
        navigatedBack := true;
      } else {
        isLoading := false;
        navigatedBack := false;
      }
      isLoading := false;
    }
  }
}
