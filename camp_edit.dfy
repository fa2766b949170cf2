/**
 * The Southlake camp edit page: the camp's attributes, the image, and Save.
 * The heading is the camp title the page was opened with, whatever the
 * title field is edited to; the Save button is disabled while `isLoading`
 * is set.
 */
module SouthlakeCampEdit {
  import opened Wrappers
  import opened JsValues
  import opened ProgramEdit

  const Endpoint := "https://southlakebackend.onrender.com/api/editCamp/"

  /** The names of the page's editable inputs. */
  const EditableNames: set<string> := {"campTitle", "week1", "week2", "time", "cost", "minimumEnrollment", "ageRequirement", "description"}

  class EditPage {
    /** The heading: the camp title the page was opened with. */
    const heading: JsValue
    /** The page's copy of the record. */
    var program: JsObject
    var imageChosen: bool
    var isLoading: bool

    /** The page opened on a record: a shallow copy of it. */
    constructor (programData: JsObject)
      ensures heading == Get(programData, "campTitle")
      ensures program == programData
      ensures !imageChosen && !isLoading
    {
      heading := Get(programData, "campTitle");
      program := programData;
      imageChosen := false;
      isLoading := false;
    }

    /** `handleInputChange`: the named attribute now holds the typed text; nothing else changes. */
    method InputChange(name: string, value: string)
      requires name in EditableNames
      modifies this
      ensures program == SetField(old(program), name, JStr(value))
      ensures imageChosen == old(imageChosen) && isLoading == old(isLoading)
    {
      program := SetField(program, name, JStr(value));
    }

    /** The file input: a file is chosen or the choice is cleared. */
    method ChooseFile(chosen: bool)
      modifies this
      ensures imageChosen == chosen
      ensures program == old(program) && isLoading == old(isLoading)
    {
      imageChosen := chosen;
    }

    /**
     * `handleSave`, reachable only while the button is enabled: upload the
     * chosen file (`uploaded` is its URL, `None` when the upload fails), then
     * PUT the record with the resulting image to the endpoint addressed by
     * the record's id.  On success (`putOk`) the page navigates back; either
     * way the edits stay and `isLoading` ends false.
     */
    method Save(uploaded: Option<string>, putOk: bool) returns (request: Request, navigatedBack: bool)
      requires !isLoading
      modifies this
      ensures request == SaveRequest(Endpoint, "id", old(program), old(imageChosen), uploaded)
      ensures navigatedBack == putOk
      ensures program == old(program) && imageChosen == old(imageChosen)
      ensures !isLoading
    {
      var imageUrl := Get(program, "image");
      if imageChosen {
        isLoading := true;
        if uploaded.Some? {
          imageUrl := JStr(uploaded.value);
        } else {
          isLoading := false;
        }
      }
      var updatedProgram := SavePayload(program, imageUrl);
      isLoading := true;
      request := Put(Endpoint + ToString(Get(program, "id")), updatedProgram);
      if putOk {
        navigatedBack := true;
      } else {
        isLoading := false;
        navigatedBack := false;
      }
      isLoading := false;
    }
  }
}
