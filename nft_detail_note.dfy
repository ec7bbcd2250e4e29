/** `NftDetailNote`: the collector's note on a token page. Its owner gets an editor that switches
    between showing and editing the note and saves it; everyone else gets a read-only viewer. */
module NftDetailNote {
  import opened Common

  const MaxCharCount: nat := 1200

  /** What one `updateNft` call was asked to store. */
  datatype UpdateRequest = UpdateRequest(tokenId: string, collectorsNote: string, collectionId: string)

  /** The analytics event sent after a successful save. */
  datatype SaveEvent = SaveEvent(addedNote: bool, numChars: nat)

  /** How the awaited `updateNft` call ends: it resolves, rejects with an `Error` (whose
      formatted message is given), or rejects with something that is not an `Error`. */
  datatype UpdateOutcome = Saved | FailedWithError(formatted: string) | FailedOther

  /** The editor body: the text area while editing, the rendered note otherwise. */
  datatype EditorBody =
    | TextArea(defaultValue: string, currentCharCount: nat, saveDisabled: bool)
    | NoteText(markdown: string, buttonLabel: string)

  /** `NoteEditor`. `unescape` is the shared helper that undoes HTML escaping; it is not part of
      this model and is taken as a parameter. */
  class NoteEditor {
    const unescape: string -> string
    const tokenId: string
    const collectionId: string
    var generalError: string
    var isEditing: bool
    var collectorsNote: string
    /** Every `updateNft` call made so far, oldest first. */
    var updates: seq<UpdateRequest>
    /** Every save event tracked so far. */
    var events: seq<SaveEvent>

    /** No note longer than the limit is ever sent; lengths are JavaScript's `.length`, in
        UTF-16 code units. */
    predicate Valid()
      reads this
    {
      forall i :: 0 <= i < |updates| ==> Utf16Length(unescape(updates[i].collectorsNote)) <= MaxCharCount
    }

    constructor (unescape: string -> string, nftCollectorsNote: Option<string>, tokenId: string, collectionId: string)
      ensures Valid()
      ensures this.unescape == unescape && this.tokenId == tokenId && this.collectionId == collectionId
      ensures !isEditing && generalError == "" && collectorsNote == GetOr(nftCollectorsNote, "")
      ensures updates == [] && events == []
    {
      this.unescape := unescape;
      this.tokenId := tokenId;
      this.collectionId := collectionId;
      generalError := "";
      isEditing := false;
      collectorsNote := GetOr(nftCollectorsNote, "");
      updates := [];
      events := [];
    }

    /** The Save button is disabled iff the unescaped note is over the limit. */
    predicate SaveDisabled()
      reads this
    {
      Utf16Length(unescape(collectorsNote)) > MaxCharCount
    }

    /** `hasCollectorsNote ? 'Edit' : 'Add Note'`, on the raw (escaped) note. */
    function EditLabel(): (r: string)
      reads this
      ensures r == "Edit" <==> |collectorsNote| > 0
      ensures r == "Add Note" <==> collectorsNote == ""
    {
      if |collectorsNote| > 0 then "Edit" else "Add Note"
    }

    function Body(): (r: EditorBody)
      reads this
      ensures r.TextArea? <==> isEditing
      ensures r.TextArea? ==> r.defaultValue == unescape(collectorsNote)
                              && r.currentCharCount == Utf16Length(r.defaultValue)
                              && (r.saveDisabled <==> r.currentCharCount > MaxCharCount)
      ensures r.NoteText? ==> r.markdown == collectorsNote && r.buttonLabel == EditLabel()
    {
      if isEditing then TextArea(unescape(collectorsNote), Utf16Length(unescape(collectorsNote)), SaveDisabled())
      else NoteText(collectorsNote, EditLabel())
    }

    /** The error line is shown iff `generalError` is non-empty. */
    predicate ShowsError()
      reads this
    {
      generalError != ""
    }

    /** `handleEditCollectorsNote` (the delayed scroll is left out). */
    method Edit()
      modifies this
      requires Valid()
      ensures Valid()
      ensures isEditing
      ensures generalError == old(generalError) && collectorsNote == old(collectorsNote)
      ensures updates == old(updates) && events == old(events)
    {
      isEditing := true;
    }

    /** `handleNoteChange` */
    method Change(value: string)
      modifies this
      requires Valid()
      ensures Valid()
      ensures collectorsNote == value
      ensures isEditing == old(isEditing) && generalError == old(generalError)
      ensures updates == old(updates) && events == old(events)
    {
      collectorsNote := value;
    }

    /** `handleSubmitCollectorsNote`: clears the error, refuses an over-long note (staying in
        edit mode), otherwise leaves edit mode and sends the update; a rejection with an `Error`
        sets the error but does not re-enter edit mode. */
    method Submit(outcome: UpdateOutcome) returns (calledUpdate: bool)
      modifies this
      requires Valid()
      ensures Valid()
      ensures calledUpdate <==> !old(SaveDisabled())
      ensures collectorsNote == old(collectorsNote)
      ensures !calledUpdate ==> isEditing == old(isEditing) && generalError == ""
                                && updates == old(updates) && events == old(events)
      ensures calledUpdate ==> !isEditing
                               && updates == old(updates) + [UpdateRequest(tokenId, collectorsNote, collectionId)]
      ensures calledUpdate && outcome.Saved? ==>
                generalError == ""
                && var n := Utf16Length(unescape(collectorsNote)); events == old(events) + [SaveEvent(n > 0, n)]
      ensures calledUpdate && !outcome.Saved? ==> events == old(events)
      ensures calledUpdate && outcome.FailedWithError? ==> generalError == outcome.formatted
      ensures calledUpdate && outcome.FailedOther? ==> generalError == ""
    {
      generalError := "";
      var length := Utf16Length(unescape(collectorsNote));
      if length > MaxCharCount {
        return false;
      }
      isEditing := false;
      updates := updates + [UpdateRequest(tokenId, collectorsNote, collectionId)];
      calledUpdate := true;
      match outcome {
        case Saved =>
          events := events + [SaveEvent(length > 0, length)];
        case FailedWithError(formatted) =>
          generalError := formatted;
        case FailedOther =>
      }
    }

    /** `handleKeyDown`: only Enter with the meta key submits, whatever the mode. */
    method KeyDown(key: string, metaKey: bool, outcome: UpdateOutcome) returns (submitted: bool, calledUpdate: bool)
      modifies this
      requires Valid()
      ensures Valid()
      ensures submitted <==> key == "Enter" && metaKey
      ensures calledUpdate ==> submitted
      ensures !submitted ==> generalError == old(generalError) && isEditing == old(isEditing)
                             && collectorsNote == old(collectorsNote)
                             && updates == old(updates) && events == old(events)
      ensures submitted ==> (calledUpdate <==> !old(SaveDisabled())) && collectorsNote == old(collectorsNote)
      ensures submitted && !calledUpdate ==> isEditing == old(isEditing) && generalError == ""
                                             && updates == old(updates) && events == old(events)
      ensures calledUpdate ==> !isEditing
                               && updates == old(updates) + [UpdateRequest(tokenId, collectorsNote, collectionId)]
      ensures calledUpdate && outcome.Saved? ==>
                generalError == ""
                && var n := Utf16Length(unescape(collectorsNote)); events == old(events) + [SaveEvent(n > 0, n)]
      ensures calledUpdate && !outcome.Saved? ==> events == old(events)
      ensures calledUpdate && outcome.FailedWithError? ==> generalError == outcome.formatted
      ensures calledUpdate && outcome.FailedOther? ==> generalError == ""
    {
      submitted := key == "Enter" && metaKey;
      calledUpdate := false;
      if submitted {
        calledUpdate := Submit(outcome);
      }
    }
  }

  datatype NoteSection = Editor | Viewer(note: string)

  /** `NftDetailNote`: the editor for the owner, the read-only viewer for everyone else. */
  function NoteSectionFor(authenticatedUserOwnsAsset: bool, nftCollectorsNote: string): (r: NoteSection)
    ensures r.Editor? <==> authenticatedUserOwnsAsset
    ensures r.Viewer? ==> r.note == nftCollectorsNote
  {
    if authenticatedUserOwnsAsset then Editor else Viewer(nftCollectorsNote)
  }
}
