/**
 * The After School program edit page: the program's attributes, the image,
 * and Save.  Save has no `finally`: a successful update leaves `loading`
 * set, and the Save button is disabled while `loading` is set.
 */
module AfterSchoolEdit {
  import opened Wrappers
  import opened JsValues
  import opened ProgramEdit

  const Endpoint := "https://southlakebackend.onrender.com/api/updateAfterSchoolProgram/"

  /** The names of the page's editable inputs. */
  const EditableNames: set<string> := {"programName", "price", "slotsAvailable", "capacity", "dateFrom", "dateTo", "ages", "location", "time", "dates", "discounts", "classExperience", "cancellationPolicy"}

  class EditPage {
    /** The heading: the name the page was opened with. */
    const heading: JsValue
    /** The page's copy of the record. */
    var program: JsObject
    var imageChosen: bool
    var loading: bool

    /** The page opened on a record: a shallow copy of it. */
    constructor (programData: JsObject)
      ensures heading == Get(programData, "programName")
      ensures program == programData
      ensures !imageChosen && !loading
    {
      heading := Get(programData, "programName");
      program := programData;
      imageChosen := false;
      loading := false;
    }

    /** `handleInputChange`: the named attribute now holds the typed text; nothing else changes. */
    method InputChange(name: string, value: string)
      requires name in EditableNames
      modifies this
      ensures program == SetField(old(program), name, JStr(value))
      ensures imageChosen == old(imageChosen) && loading == old(loading)
    {
      program := SetField(program, name, JStr(value));
    }

    /** The file input: a file is chosen or the choice is cleared. */
    method ChooseFile(chosen: bool)
      modifies this
      ensures imageChosen == chosen
      ensures program == old(program) && loading == old(loading)
    {
      imageChosen := chosen;
    }

    /**
     * `handleSave`, reachable only while the button is enabled: upload the
     * chosen file (`uploaded` is its URL, `None` when the upload fails), then
     * PUT the record with the resulting image to the endpoint addressed by
     * the record's id.  On success (`putOk`) the page navigates back and
     * `loading` stays set; on failure the edits stay and `loading` is reset.
     */
    method Save(uploaded: Option<string>, putOk: bool) returns (request: Request, navigatedBack: bool)
      requires !loading
      modifies this
      ensures request == SaveRequest(Endpoint, "id", old(program), old(imageChosen), uploaded)
      ensures navigatedBack == putOk
      ensures program == old(program) && imageChosen == old(imageChosen)
      ensures loading == putOk
    {
      var imageUrl := Get(program, "image");
      if imageChosen {
        loading := true;
        if uploaded.Some? {
          imageUrl := JStr(uploaded.value);
        } else {
          loading := false;
        }
      }
      var updatedProgram := SavePayload(program, imageUrl);
      loading := true;
      request := Put(Endpoint + ToString(Get(program, "id")), updatedProgram);
      if putOk {
        navigatedBack := true;
      } else {
        loading := false;
        navigatedBack := false;
      }
    }
  }
}
