/**
 * The single program edit page: the program's attributes (the name is
 * read-only), the image, and Save, which addresses the program by its name
 * on a local development server.  The page has no loading flag.
 */
module SingleProgramEdit {
  import opened Wrappers
  import opened JsValues
  import opened ProgramEdit

  const Endpoint := "http://localhost:10000/api/updateSingleProgram/"

  /** The names of the page's editable inputs. */
  const EditableNames: set<string> := {"price", "slotsAvailable", "ages", "location", "dates", "capacity", "time", "discounts", "classExperience", "cancellationPolicy"}

  class EditPage {
    /** The page's copy of the record. */
    var program: JsObject
    var imageChosen: bool

    /** The heading: the record's current program name. */
    function Heading(): JsValue
      reads this
    {
      Get(program, "programName")
    }

    /** The page opened on a record: a shallow copy of it. */
    constructor (programData: JsObject)
      ensures program == programData
      ensures !imageChosen
    {
      program := programData;
      imageChosen := false;
    }

    /** `handleInputChange`: the named attribute now holds the typed text; nothing else changes. */
    method InputChange(name: string, value: string)
      requires name in EditableNames
      modifies this
      ensures program == SetField(old(program), name, JStr(value))
      ensures Heading() == old(Heading())
      ensures imageChosen == old(imageChosen)
    {
      assert "programName" !in EditableNames;
      program := SetField(program, name, JStr(value));
    }

    /** The file input: a file is chosen or the choice is cleared. */
    method ChooseFile(chosen: bool)
      modifies this
      ensures imageChosen == chosen
      ensures program == old(program)
    {
      imageChosen := chosen;
    }

    /**
     * `handleSave`: upload the chosen file (`uploaded` is its URL, `None`
     * when the upload fails), then PUT the record with the resulting image
     * to the endpoint addressed by the record's program name.  On success
     * (`putOk`) the page navigates back; on failure the edits stay.
     */
    method Save(uploaded: Option<string>, putOk: bool) returns (request: Request, navigatedBack: bool)
      modifies this
      ensures request == SaveRequest(Endpoint, "programName", old(program), old(imageChosen), uploaded)
      ensures navigatedBack == putOk
      ensures program == old(program) && imageChosen == old(imageChosen)
    {
      var imageUrl := Get(program, "image");
      if imageChosen && uploaded.Some? {
        imageUrl := JStr(uploaded.value);
      }
      var updatedProgram := SavePayload(program, imageUrl);
      request := Put(Endpoint + ToString(Get(program, "programName")), updatedProgram);
      navigatedBack := putOk;
    }
  }
}
