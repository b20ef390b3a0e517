/** The writing form: the fields being typed, tag selection and the hand-over of a finished draft. */
module AppWrite {
  import opened Prelude
  import opened Types
  import opened Seqs
  import opened JsText
  import opened AppMood
  import opened AppMain

  /** The title every draft is saved with. */
  const DiaryTitle := "日记"

  /** The selected tags after clicking `t`: a selected tag is dropped, any other is appended. */
  function Toggled(tags: seq<string>, t: string): (r: seq<string>)
    ensures t in r <==> t !in tags
    ensures forall x :: x != t ==> (x in r <==> x in tags)
    ensures IsSubseq(Filter(tags, (x: string) => x != t), r)
    ensures t !in tags ==> r == tags + [t]
    ensures t in tags ==> IsSubseq(r, tags)
    ensures forall x :: x != t ==> multiset(r)[x] == multiset(tags)[x]
  {
    FilterCounts(tags, (x: string) => x != t);
    if t in tags then
      SubseqReflexive(Filter(tags, (x: string) => x != t));
      Filter(tags, (x: string) => x != t)
    else
      FilterKeepsAll(tags, (x: string) => x != t);
      SubseqAppend(tags, [t]);
      tags + [t]
  }

  /** Clicking an unselected tag twice restores the selection. */
  lemma ToggleTwiceRestores(tags: seq<string>, t: string)
    requires t !in tags
    ensures Toggled(Toggled(tags, t), t) == tags
  {
    FilterAppend(tags, [t], (x: string) => x != t);
    FilterKeepsAll(tags, (x: string) => x != t);
    assert Filter([t], (x: string) => x != t) == [];
  }

  /** Toggling never duplicates a tag. */
  lemma ToggleKeepsNoDuplicates(tags: seq<string>, t: string)
    requires NoDuplicates(tags)
    ensures NoDuplicates(Toggled(tags, t))
  {
    if t in tags {
      FilterPreservesNoDuplicates(tags, (x: string) => x != t);
    }
  }

  /** The photo handed over: `image || undefined`, so an empty data URL counts as none. */
  function PhotoOf(image: Option<string>): (photo: Option<string>)
    ensures photo.Some? <==> image.Some? && image.value != ""
    ensures photo.Some? ==> photo == image
  {
    if image.Some? && image.value != "" then image else None
  }

  /** The state of the writing form. */
  class WriteForm {
    var event: string
    var feeling: string
    var evidence: string
    var tags: seq<string>
    var newTag: string
    /** The compressed photo as a data URL, or none. */
    var image: Option<string>
    var moodScore: int

    /** An empty form with the slider in the middle. */
    constructor ()
      ensures event == "" && feeling == "" && evidence == "" && tags == [] && newTag == ""
      ensures image == None && moodScore == 50
    {
      event, feeling, evidence, tags, newTag := "", "", "", [], "";
      image := None;
      moodScore := 50;
    }

    /** Selects or deselects a tag. */
    method ToggleTag(t: string)
      modifies this`tags
      ensures tags == Toggled(old(tags), t)
    {
      if t in tags {
        tags := Filter(tags, (x: string) => x != t);
      } else {
        tags := tags + [t];
      }
    }

    /**
     * The draft handed to the save callback, or none when the event or the
     * evidence is blank. An empty feeling is replaced by the default word for
     * the score; the mood is the score's label.
     */
    method HandleSave() returns (draft: Option<Draft>)
      ensures draft.Some? <==> !AllWhitespace(event) && !AllWhitespace(evidence)
      ensures draft.Some? ==>
        && draft.value.content.event == event && draft.value.content.evidence == evidence
        && draft.value.content.feeling == (if feeling == "" then DefaultFeeling(moodScore) else feeling)
        && draft.value.content.feeling != ""
        && draft.value.title == DiaryTitle && draft.value.tags == tags
        && draft.value.moodScore == moodScore && draft.value.mood == MoodLabel(moodScore)
        && draft.value.image == PhotoOf(image)
    {
      TrimEmptyIffBlank(event);
      TrimEmptyIffBlank(evidence);
      if Trim(event) == "" || Trim(evidence) == "" {
        return None;
      }
      var chosen := if feeling != "" then feeling else DefaultFeeling(moodScore);
      draft := Some(Draft(DiaryTitle, Content(event, chosen, evidence), tags, MoodLabel(moodScore), moodScore, PhotoOf(image)));
    }

    /**
     * Adds the typed tag: a blank entry is ignored; otherwise the trimmed tag
     * becomes a custom tag of the application, is selected (toggled), and the
     * input is cleared.
     */
    method HandleAddNewTag(app: AppState)
      modifies this`tags, this`newTag, app`settings
      ensures AllWhitespace(old(newTag)) ==>
        tags == old(tags) && newTag == old(newTag) && app.settings == old(app.settings)
      ensures !AllWhitespace(old(newTag)) ==>
        && Trim(old(newTag)) != ""
        && app.settings == old(app.settings).(customTags := WithCustomTag(old(app.settings).customTags, Trim(old(newTag))))
        && tags == Toggled(old(tags), Trim(old(newTag)))
        && newTag == ""
    {
      TrimEmptyIffBlank(newTag);
      if Trim(newTag) != "" {
        var t := Trim(newTag);
        app.HandleAddCustomTag(t);
        ToggleTag(t);
        newTag := "";
      }
    }
  }
}
