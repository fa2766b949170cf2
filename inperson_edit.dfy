/**
 * The in-person private tutoring edit page: the program's text attributes,
 * its `numberOfHours` session list (hours and price per row), the image, and
 * Save.  Editing a session row changes the shared entry object in place and
 * then stores the copied list under a `sessionType` key, which the record
 * did not have; `numberOfHours` keeps the same entry objects and so shows the
 * change as well.
 */
module InPersonTutoringEdit {
  import opened Wrappers
  import opened JsValues
  import opened Seqs
  import opened ProgramEdit

  const Endpoint := "https://southlakebackend.onrender.com/api/updatePrivateAndTestPrep/"

  /** The names of the page's text areas. */
  const EditableNames: set<string> := {"programName", "price", "slotsAvailable", "ages", "location", "dates",
                                       "capacity", "time", "discounts", "classExperience", "cancellationPolicy"}

  class EditPage {
    /** The heading: the name the page was opened with. */
    const heading: JsValue
    /** The record's attributes; the two session lists are kept apart, as they hold shared entries. */
    var program: JsObject
    var numberOfHours: seq<PricedOption>
    /** The list the row edits store, once a row has been edited. */
    var sessionType: Option<seq<PricedOption>>
    var imageChosen: bool
    var isLoading: bool

    predicate Valid()
      reads this
    {
      Distinct(numberOfHours)
    }

    /** The entries the page can reach. */
    function Entries(): set<PricedOption>
      reads this
    {
      (set o | o in numberOfHours) + (if sessionType.Some? then set o | o in sessionType.value else {})
    }

    /** The record as it would be sent: the attributes with the current session lists. */
    function Record(): JsObject
      reads this, Entries()
    {
      var r := SetField(program, "numberOfHours", ListValue(numberOfHours, "hours"));
      if sessionType.Some? then SetField(r, "sessionType", ListValue(sessionType.value, "hours")) else r
    }

    /** The page opened on a record: a shallow copy, sharing the session entries. */
    constructor (programData: JsObject, hours: seq<PricedOption>)
      requires Distinct(hours)
      ensures Valid()
      ensures heading == Get(programData, "programName")
      ensures program == programData && numberOfHours == hours && sessionType == None
      ensures !imageChosen && !isLoading
    {
      heading := Get(programData, "programName");
      program := programData;
      numberOfHours := hours;
      sessionType := None;
      imageChosen := false;
      isLoading := false;
    }

    /** `handleInputChange`: the named attribute now holds the typed text; nothing else changes. */
    method InputChange(name: string, value: string)
      requires name in EditableNames
      modifies this
      ensures program == SetField(old(program), name, JStr(value))
      ensures numberOfHours == old(numberOfHours) && sessionType == old(sessionType)
      ensures imageChosen == old(imageChosen) && isLoading == old(isLoading)
    {
      program := SetField(program, name, JStr(value));
    }

    /**
     * `handleSessionTypeChange`: row `index` gets the new text in place; the
     * list keeps its entries and the other rows their texts; the list is
     * also stored under `sessionType`.
     */
    method EditSession(index: nat, field: OptionField, value: string)
      requires Valid() && index < |numberOfHours|
      modifies this, numberOfHours[index]
      ensures Valid()
      ensures numberOfHours == old(numberOfHours)
      ensures Pairs(numberOfHours) == old(Pairs(numberOfHours))[index := SetOption(old(Pairs(numberOfHours))[index], field, value)]
      ensures sessionType == Some(numberOfHours)
      ensures program == old(program) && imageChosen == old(imageChosen) && isLoading == old(isLoading)
    {
      var updated := numberOfHours;
      var entry := updated[index];
      match field {
        case NameField => entry.name := value;
        case PriceField => entry.price := value;
      }
      sessionType := Some(updated);
    }

    /** `handleAddSessionType`: a new empty row at the end; the earlier rows are unchanged. */
    method AddSession()
      requires Valid()
      modifies this
      ensures Valid()
      ensures |numberOfHours| == |old(numberOfHours)| + 1
      ensures numberOfHours[..|old(numberOfHours)|] == old(numberOfHours)
      ensures fresh(numberOfHours[|numberOfHours| - 1])
      ensures Pairs(numberOfHours) == old(Pairs(numberOfHours)) + [("", "")]
      ensures program == old(program) && sessionType == old(sessionType)
      ensures imageChosen == old(imageChosen) && isLoading == old(isLoading)
    {
      var entry := new PricedOption("", "");
      numberOfHours := numberOfHours + [entry];
    }

    /** `handleRemoveSessionType`: exactly row `index` is gone; the others keep their order. */
    method RemoveSession(index: nat)
      requires Valid() && index < |numberOfHours|
      modifies this
      ensures Valid()
      ensures numberOfHours == RemoveAt(old(numberOfHours), index)
      ensures Pairs(numberOfHours) == RemoveAt(old(Pairs(numberOfHours)), index)
      ensures program == old(program) && sessionType == old(sessionType)
      ensures imageChosen == old(imageChosen) && isLoading == old(isLoading)
    {
      ghost var before := Pairs(numberOfHours);
      RemoveAtSpec(numberOfHours, index);
      RemoveAtSpec(before, index);
      numberOfHours := RemoveAt(numberOfHours, index);
    }

    /** The file input: a file is chosen or the choice is cleared. */
    method ChooseFile(chosen: bool)
      modifies this
      ensures imageChosen == chosen
      ensures program == old(program) && numberOfHours == old(numberOfHours) && sessionType == old(sessionType)
      ensures isLoading == old(isLoading)
    {
      imageChosen := chosen;
    }

    /**
     * `handleSave`: upload the chosen file (`uploaded` is its URL, `None`
     * when the upload fails), then PUT the record with the resulting image
     * to the endpoint addressed by the record's id.  `putOk` is the PUT's
     * outcome: on success the page navigates back; either way the edits stay
     * and `isLoading` ends false.
     */
    method Save(uploaded: Option<string>, putOk: bool) returns (request: Request, navigatedBack: bool)
      modifies this
      ensures request == SaveRequest(Endpoint, "id", old(Record()), old(imageChosen), uploaded)
      ensures navigatedBack == putOk
      ensures program == old(program) && numberOfHours == old(numberOfHours) && sessionType == old(sessionType)
      ensures imageChosen == old(imageChosen) && !isLoading
    {
      var record := Record();
      var imageUrl := Get(record, "image");
      if imageChosen {
        isLoading := true;
        if uploaded.Some? {
          imageUrl := JStr(uploaded.value);
        } else {
          isLoading := false;
        }
      }
      var updatedProgram := SavePayload(record, imageUrl);
      isLoading := true;
      request := Put(Endpoint + ToString(Get(record, "id")), updatedProgram);
      if putOk {
        navigatedBack := true;
      } else {
        isLoading := false;
        navigatedBack := false;
      }
      isLoading := false;
    }
  }
}
