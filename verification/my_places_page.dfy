/** The logic of the saved-places page (app/my-places/page.tsx): the tag
    normaliser and its display split, the submit guard, the list transitions
    after a create, a toggle and a remove, and the visited count. The page's
    React state is the class `MyPlacesPage`; each handler takes the outcome of
    its request (the place in the response, or None when the request failed)
    as a parameter, and returns what it sent. */
module MyPlacesPage {
  import opened Wrappers
  import Text
  import Seqs
  import Store = MyPlacesStore

  type Place = Store.PlaceDto

  datatype FormState = FormState(name: string, notes: string, tags: string)

  const EmptyForm := FormState("", "", "")

  /** The JSON body POSTed by `handleSubmit`. */
  datatype CreatePayload = CreatePayload(name: string, notes: string, tags: string)

  const SaveFailedMessage := "We couldn't save that place. Please check your connection and try again."
  const UpdateFailedMessage := "We couldn't update that place right now. Please try again shortly."
  const RemoveFailedMessage := "We couldn't remove that place right now. Please try again shortly."

  predicate NoComma(pieces: seq<string>) {
    forall i :: 0 <= i < |pieces| ==> ',' !in pieces[i]
  }

  /** `.map((tag) => tag.trim()).filter(Boolean)`. */
  function CleanTags(pieces: seq<string>): (r: seq<string>)
    ensures |r| <= |pieces|
    ensures forall i :: 0 <= i < |r| ==> r[i] != "" && Text.IsTrimmed(r[i])
    ensures forall t :: t in r <==> exists i :: 0 <= i < |pieces| && t == Text.Trim(pieces[i]) && t != ""
    ensures NoComma(pieces) ==> NoComma(r)
  {
    if pieces == [] then []
    else
      var t := Text.Trim(pieces[0]);
      var rest := CleanTags(pieces[1..]);
      assert NoComma(pieces) ==> NoComma(pieces[1..]) && ',' !in t by {
        if NoComma(pieces) {
          assert ',' !in pieces[0];
          Text.TrimRemovesEnds(pieces[0]);
        }
      }
      assert forall i :: 1 <= i < |pieces| ==> pieces[i] == pieces[1..][i - 1];
      if t == "" then rest else [t] + rest
  }

  /** Cleaning works piece by piece, so the kept tags keep the order they were typed in. */
  lemma {:induction false} CleanTagsConcat(a: seq<string>, b: seq<string>)
    ensures CleanTags(a + b) == CleanTags(a) + CleanTags(b)
  {
    if a == [] {
      assert a + b == b;
    } else {
      assert (a + b)[0] == a[0] && (a + b)[1..] == a[1..] + b;
      CleanTagsConcat(a[1..], b);
    }
  }

  /** The `tags` of the submitted payload: split on ",", trimmed, empty pieces
      dropped, joined by ", ". */
  function NormalizeTags(tags: string): (r: string)
    ensures r == "" <==> CleanTags(Text.SplitBy(tags, ",")) == []
    ensures CleanTags(Text.SplitBy(tags, ",")) != [] ==> CleanTags(Text.SplitBy(tags, ","))[0] <= r
  {
    Text.Join(CleanTags(Text.SplitBy(tags, ",")), ", ")
  }

  /** The tag list a card shows: nothing for "", else `tags.split(", ")`. */
  function DisplayTags(tags: string): (r: seq<string>)
    ensures r == [] <==> tags == ""
    ensures tags != "" ==> Text.Join(r, ", ") == tags
    ensures forall i :: 0 <= i < |r| ==> Text.Avoids(r[i], ", ")
    ensures tags != "" && ',' !in tags ==> r == [tags]
  {
    if tags == "" then []
    else
      Text.JoinSplit(tags, ", ");
      Text.SplitPiecesAvoid(tags, ", ");
      assert ", "[0] == ',';
      if ',' !in tags then Text.SplitWithoutSeparator(tags, ", "); Text.SplitBy(tags, ", ")
      else Text.SplitBy(tags, ", ")
  }

  lemma CommaNotWhitespace(ws: string)
    requires Text.AllWhitespace(ws)
    ensures ',' !in ws
  {
    forall i | 0 <= i < |ws| ensures ws[i] != ',' {
      assert Text.IsWhitespace(ws[i]);
    }
  }

  lemma JoinCons(pieces: seq<string>, sep: string)
    requires |pieces| > 1
    ensures Text.Join(pieces, sep) == pieces[0] + sep + Text.Join(pieces[1..], sep)
  {
  }

  /** Re-splitting a joined list of clean tags on "," and cleaning again gives
      the same tags, whatever whitespace stands in front. */
  lemma {:induction false} CleanSplitJoin(lead: string, pieces: seq<string>)
    requires Text.AllWhitespace(lead) && |pieces| > 0 && NoComma(pieces)
    requires forall i :: 0 <= i < |pieces| ==> pieces[i] != "" && Text.IsTrimmed(pieces[i])
    ensures CleanTags(Text.SplitBy(lead + Text.Join(pieces, ", "), ",")) == pieces
    decreases |pieces|
  {
    CommaNotWhitespace(lead);
    assert ',' !in pieces[0];
    Text.TrimAfterWhitespace(lead, pieces[0]);
    if |pieces| == 1 {
      Text.SplitWithoutSeparator(lead + pieces[0], ",");
      assert CleanTags([lead + pieces[0]]) == [pieces[0]];
    } else {
      CleanSplitFirst(lead, pieces);
      assert Text.AllWhitespace(" ");
      CleanSplitJoin(" ", pieces[1..]);
      assert [pieces[0]] + pieces[1..] == pieces;
    }
  }

  /** The first tag of a joined list splits off on its own. */
  lemma CleanSplitFirst(lead: string, pieces: seq<string>)
    requires |pieces| > 1 && ',' !in lead && ',' !in pieces[0]
    requires Text.Trim(lead + pieces[0]) == pieces[0] && pieces[0] != ""
    ensures CleanTags(Text.SplitBy(lead + Text.Join(pieces, ", "), ","))
         == [pieces[0]] + CleanTags(Text.SplitBy(" " + Text.Join(pieces[1..], ", "), ","))
  {
    var first := lead + pieces[0];
    var rest := Text.Join(pieces[1..], ", ");
    JoinCons(pieces, ", ");
    Regroup(lead, pieces[0], rest);
    assert ',' !in first;
    Text.SplitAfterPiece(first, ",", " " + rest);
    var tail := Text.SplitBy(" " + rest, ",");
    var split := [first] + tail;
    assert split[0] == first && split[1..] == tail;
  }

  lemma Regroup(lead: string, p: string, rest: string)
    ensures lead + (p + ", " + rest) == (lead + p) + "," + (" " + rest)
  {
    assert ", " == "," + " ";
  }

  /** The display split of a normalised string gives back exactly the trimmed,
      non-empty comma-separated pieces of what was typed. */
  lemma {:induction false} TagsRoundTrip(tags: string)
    ensures DisplayTags(NormalizeTags(tags)) == CleanTags(Text.SplitBy(tags, ","))
  {
    var pieces := CleanTags(Text.SplitBy(tags, ","));
    if pieces != [] {
      Text.SplitPiecesAvoidSeparator(tags, ",");
      Text.SplitJoin(pieces, ", ");
    }
  }

  /** Every tag shown after normalising is non-empty, trimmed and free of commas. */
  lemma {:induction false} NormalizedTagsAreClean(tags: string)
    ensures var shown := DisplayTags(NormalizeTags(tags));
      forall i :: 0 <= i < |shown| ==> shown[i] != "" && Text.IsTrimmed(shown[i]) && ',' !in shown[i]
  {
    TagsRoundTrip(tags);
    Text.SplitPiecesAvoidSeparator(tags, ",");
    assert ","[0] == ',';
    assert NoComma(Text.SplitBy(tags, ","));
  }

  /** Normalising an already normalised string changes nothing. */
  lemma {:induction false} NormalizeTagsIdempotent(tags: string)
    ensures NormalizeTags(NormalizeTags(tags)) == NormalizeTags(tags)
  {
    var pieces := CleanTags(Text.SplitBy(tags, ","));
    Text.SplitPiecesAvoidSeparator(tags, ",");
    if pieces != [] {
      assert "" + Text.Join(pieces, ", ") == Text.Join(pieces, ", ");
      CleanSplitJoin("", pieces);
    }
  }

  /** The payload `handleSubmit` sends for a form. */
  function SubmitPayload(form: FormState): (p: CreatePayload)
    ensures p.name == Text.Trim(form.name) && p.notes == Text.Trim(form.notes)
    ensures Text.IsTrimmed(p.name) && Text.IsTrimmed(p.notes)
    ensures p.tags == NormalizeTags(form.tags)
  {
    CreatePayload(Text.Trim(form.name), Text.Trim(form.notes), NormalizeTags(form.tags))
  }

  /** `previous.map((place) => (place.id === id ? updated : place))`. */
  function ReplaceById(places: seq<Place>, id: string, updated: Place): (r: seq<Place>)
    ensures |r| == |places|
    ensures forall i :: 0 <= i < |places| && places[i].id != id ==> r[i] == places[i]
    ensures forall i :: 0 <= i < |places| && places[i].id == id ==> r[i] == updated
  {
    if places == [] then []
    else [if places[0].id == id then updated else places[0]] + ReplaceById(places[1..], id, updated)
  }

  /** `previous.filter((place) => place.id !== id)`. */
  function RemoveById(places: seq<Place>, id: string): (r: seq<Place>)
    ensures forall i :: 0 <= i < |r| ==> r[i].id != id
    ensures forall p :: p in r <==> p in places && p.id != id
    ensures (forall i :: 0 <= i < |places| ==> places[i].id != id) ==> r == places
  {
    if places == [] then []
    else
      var rest := RemoveById(places[1..], id);
      assert places == [places[0]] + places[1..];
      if places[0].id == id then rest else [places[0]] + rest
  }

  /** Removing from a list made of two parts removes from each part in place,
      so the places that stay keep their order. */
  lemma {:induction false} RemoveByIdConcat(a: seq<Place>, b: seq<Place>, id: string)
    ensures RemoveById(a + b, id) == RemoveById(a, id) + RemoveById(b, id)
  {
    if a == [] {
      assert a + b == b;
    } else {
      assert (a + b)[0] == a[0] && (a + b)[1..] == a[1..] + b;
      RemoveByIdConcat(a[1..], b, id);
    }
  }

  predicate IsVisited(p: Place) {
    p.visited
  }

  /** `places.filter((place) => place.visited).length`. */
  function VisitedCount(places: seq<Place>): (r: nat)
    ensures r == |Seqs.Filter(places, IsVisited)|
    ensures r <= |places|
    ensures r == 0 <==> forall i :: 0 <= i < |places| ==> !places[i].visited
    ensures r == |places| <==> forall i :: 0 <= i < |places| ==> places[i].visited
  {
    if places == [] then 0
    else
      var rest := VisitedCount(places[1..]);
      var here := if places[0].visited then 1 else 0;
      assert here + rest == |Seqs.Filter(places, IsVisited)| by {
        VisitedFilterStep(places);
      }
      VisitedCountStep(places, rest);
      here + rest
  }

  /** The extremes of the count carry over from the tail to the whole list. */
  lemma VisitedCountStep(places: seq<Place>, rest: nat)
    requires places != [] && rest <= |places[1..]|
    requires rest == 0 <==> forall i :: 0 <= i < |places[1..]| ==> !places[1..][i].visited
    requires rest == |places[1..]| <==> forall i :: 0 <= i < |places[1..]| ==> places[1..][i].visited
    ensures var r := (if places[0].visited then 1 else 0) + rest;
      && (r == 0 <==> forall i :: 0 <= i < |places| ==> !places[i].visited)
      && (r == |places| <==> forall i :: 0 <= i < |places| ==> places[i].visited)
  {
    assert forall i :: 1 <= i < |places| ==> places[i] == places[1..][i - 1];
  }

  lemma VisitedFilterStep(places: seq<Place>)
    requires places != []
    ensures |Seqs.Filter(places, IsVisited)| == (if places[0].visited then 1 else 0) + |Seqs.Filter(places[1..], IsVisited)|
  {
  }

  /** The page's state. */
  class MyPlacesPage {
    var places: seq<Place>
    var form: FormState
    var isSaving: bool
    var errorMessage: Option<string>

    constructor ()
      ensures places == [] && form == EmptyForm && !isSaving && errorMessage == None
    {
      places := [];
      form := EmptyForm;
      isSaving := false;
      errorMessage := None;
    }

    /** `handleSubmit`: nothing is sent and nothing changes for a blank name;
        a created place goes in front of the list and the form is cleared. */
    method HandleSubmit(reply: Option<Place>) returns (sent: Option<CreatePayload>)
      modifies this
      ensures Text.Trim(old(form.name)) == "" ==>
        sent == None && places == old(places) && form == old(form)
        && isSaving == old(isSaving) && errorMessage == old(errorMessage)
      ensures Text.Trim(old(form.name)) != "" ==> sent == Some(SubmitPayload(old(form))) && !isSaving
      ensures Text.Trim(old(form.name)) != "" && reply.Some? ==>
        places == [reply.value] + old(places) && form == EmptyForm && errorMessage == None
      ensures Text.Trim(old(form.name)) != "" && reply.None? ==>
        places == old(places) && form == old(form) && errorMessage == Some(SaveFailedMessage)
    {
      if Text.Trim(form.name) == "" {
        return None;
      }
      isSaving := true;
      errorMessage := None;
      sent := Some(SubmitPayload(form));
      match reply {
        case Some(created) =>
          places := [created] + places;
          form := EmptyForm;
        case None =>
          errorMessage := Some(SaveFailedMessage);
      }
      isSaving := false;
    }

    /** `toggleVisited`: no request for an id the list does not hold; otherwise
        the request asks for the opposite of the place's current `visited`, and
        the place returned replaces every entry with that id. */
    method ToggleVisited(id: string, reply: Option<Place>) returns (sent: Option<bool>)
      modifies this
      ensures form == old(form) && isSaving == old(isSaving)
      ensures sent.Some? <==> exists i :: 0 <= i < |old(places)| && old(places)[i].id == id
      ensures sent.Some? ==>
        exists i :: 0 <= i < |old(places)| && old(places)[i].id == id
          && (forall j :: 0 <= j < i ==> old(places)[j].id != id)
          && sent.value == !old(places)[i].visited
      ensures sent.None? ==> places == old(places) && errorMessage == None
      ensures sent.Some? && reply.Some? ==>
        places == ReplaceById(old(places), id, reply.value) && errorMessage == None
      ensures sent.Some? && reply.None? ==>
        places == old(places) && errorMessage == Some(UpdateFailedMessage)
    {
      errorMessage := None;
      var current := Seqs.FirstIndex(places, (p: Place) => p.id == id);
      if current.None? {
        return None;
      }
      sent := Some(!places[current.value].visited);
      match reply {
        case Some(updated) =>
          places := ReplaceById(places, id, updated);
        case None =>
          errorMessage := Some(UpdateFailedMessage);
      }
    }

    /** `removePlace`: on success no entry with that id is left. */
    method RemovePlace(id: string, succeeded: bool)
      modifies this
      ensures form == old(form) && isSaving == old(isSaving)
      ensures succeeded ==> places == RemoveById(old(places), id) && errorMessage == None
      ensures !succeeded ==> places == old(places) && errorMessage == Some(RemoveFailedMessage)
    {
      errorMessage := None;
      if succeeded {
        places := RemoveById(places, id);
      } else {
        errorMessage := Some(RemoveFailedMessage);
      }
    }
  }
}
