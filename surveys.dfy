/**
 * The set of loaded surveys (`ImageSurveys`): which survey, or which list of
 * component surveys, is the primary layer, and the map from root URL to the
 * survey objects it names.
 */
module Surveys {
  import opened Options
  import opened Transition
  import opened Survey

  /** The primary layer: a composite of component surveys, one simple survey, or nothing yet. */
  datatype ImageSurveyIdx = Composite(ids: seq<string>) | Simple(id: string) | None

  /** The root URLs the primary layer names. */
  function Named(p: ImageSurveyIdx): (names: set<string>)
    ensures p.Simple? ==> names == {p.id}
    ensures p.None? ==> names == {}
    ensures p.Composite? ==> forall k :: k in names <==> k in p.ids
  {
    match p
    case Composite(ids) => set k | k in ids
    case Simple(id) => {id}
    case None => {}
  }

  /** A composite names at least one component and names each at most once. */
  predicate WellFormed(p: ImageSurveyIdx) {
    p.Composite? ==>
      |p.ids| > 0 && forall i, j :: 0 <= i < j < |p.ids| ==> p.ids[i] != p.ids[j]
  }

  /** The survey kind every survey of the primary layer has. */
  predicate KindFits(p: ImageSurveyIdx, kind: ImageSurveyType) {
    match p
    case Composite(_) => kind == ImageSurveyType.Component
    case Simple(_) => kind == ImageSurveyType.Simple
    case None => true
  }

  /**
   * `set_simple_hips` only recolours a survey already in place: the same
   * simple survey selected again, or a component already in the composite.
   */
  predicate Reselects(p: ImageSurveyIdx, id: string, kind: ImageSurveyType) {
    || (p.Simple? && kind == ImageSurveyType.Simple && p.id == id)
    || (p.Composite? && kind == ImageSurveyType.Component && id in p.ids)
  }

  /**
   * The surveys `set_simple_hips` drops when it does not only recolour: a
   * simple survey gives way to anything, a composite to a simple survey, and a
   * composite keeps its components when one more is added.
   */
  function Removed(p: ImageSurveyIdx, kind: ImageSurveyType): set<string> {
    match p
    case Simple(id) => {id}
    case Composite(ids) => if kind == ImageSurveyType.Simple then Named(p) else {}
    case None => {}
  }

  /**
   * The primary layer after `set_simple_hips` adds survey `id` of `kind`: a
   * simple survey becomes the only one, a component joins the composite (or
   * starts one), and a survey already in place leaves the layer as it is.
   */
  function NextPrimary(p: ImageSurveyIdx, id: string, kind: ImageSurveyType): (q: ImageSurveyIdx)
    ensures Reselects(p, id, kind) ==> q == p
    ensures kind == ImageSurveyType.Simple ==> q == ImageSurveyIdx.Simple(id)
    ensures kind == ImageSurveyType.Component && !Reselects(p, id, kind) ==>
              q == Composite(if p.Composite? then p.ids + [id] else [id])
    ensures KindFits(q, kind) && id in Named(q)
    ensures WellFormed(p) ==> WellFormed(q)
    ensures Named(q) == if Reselects(p, id, kind) then Named(p) else Named(p) - Removed(p, kind) + {id}
  {
    match p
    case Simple(currId) =>
      if kind == ImageSurveyType.Simple then ImageSurveyIdx.Simple(id) else Composite([id])
    case Composite(currIds) =>
      if kind == ImageSurveyType.Simple then ImageSurveyIdx.Simple(id)
      else if id in currIds then p
      else Composite(currIds + [id])
    case None =>
      if kind == ImageSurveyType.Simple then ImageSurveyIdx.Simple(id) else Composite([id])
  }

  /** Adding the same survey twice: the second call only recolours it and leaves the layer as the first left it. */
  lemma SetSimpleHipsTwice(p: ImageSurveyIdx, id: string, kind: ImageSurveyType)
    ensures Reselects(NextPrimary(p, id, kind), id, kind)
    ensures NextPrimary(NextPrimary(p, id, kind), id, kind) == NextPrimary(p, id, kind)
  {
  }

  /** `m` without the keys of `ids`, removed one after the other. */
  function RemoveEach<V>(m: map<string, V>, ids: seq<string>): map<string, V> {
    if ids == [] then m
    else RemoveEach(m, ids[..|ids| - 1]) - {ids[|ids| - 1]}
  }

  /** Removing the keys one by one removes exactly the set of them. */
  lemma {:induction false} RemoveEachIsSetRemoval<V>(m: map<string, V>, ids: seq<string>)
    ensures RemoveEach(m, ids) == m - (set k | k in ids)
  {
    if ids != [] {
      var init := ids[..|ids| - 1];
      RemoveEachIsSetRemoval(m, init);
      assert (set k | k in ids) == (set k | k in init) + {ids[|ids| - 1]};
    }
  }

  /**
   * `surveys` holds exactly the surveys `primary` names, each under its own
   * root URL and of the kind the layer calls for.
   */
  ghost predicate Consistent(surveys: map<string, ImageSurvey>, primary: ImageSurveyIdx) {
    && WellFormed(primary)
    && surveys.Keys == Named(primary)
    && forall k :: k in surveys ==> surveys[k].id == k && KindFits(primary, surveys[k].kind)
  }

  /** Adding a survey that is not already in place keeps the map and the layer consistent. */
  lemma AddKeepsConsistent(surveys: map<string, ImageSurvey>, primary: ImageSurveyIdx, survey: ImageSurvey)
    requires Consistent(surveys, primary) && !Reselects(primary, survey.id, survey.kind)
    ensures Consistent((surveys - Removed(primary, survey.kind))[survey.id := survey],
                       NextPrimary(primary, survey.id, survey.kind))
  {
    var q := NextPrimary(primary, survey.id, survey.kind);
    var m := (surveys - Removed(primary, survey.kind))[survey.id := survey];
    forall k | k in m
      ensures m[k].id == k && KindFits(q, m[k].kind)
    {
      if k != survey.id {
        assert k in Named(primary) - Removed(primary, survey.kind);
        assert survey.kind == ImageSurveyType.Component && primary.Composite?;
      }
    }
  }

  /**
   * The surveys and the primary layer. `surveys` holds exactly the surveys
   * the primary layer names, each under its own root URL.
   */
  class ImageSurveys {
    var surveys: map<string, ImageSurvey>
    var primary: ImageSurveyIdx

    ghost predicate Valid()
      reads this
    {
      Consistent(surveys, primary)
    }

    /** `ImageSurveys::new`: no survey, no primary layer. */
    constructor ()
      ensures Valid()
      ensures surveys == map[] && primary == ImageSurveyIdx.None
    {
      surveys := map[];
      primary := ImageSurveyIdx.None;
    }

    /**
     * `set_simple_hips`: adds `survey` to the primary layer. A survey already
     * in place is only recoloured; otherwise the surveys the layer gives up are
     * dropped and `survey` is stored under its root URL.
     */
    method SetSimpleHips(survey: ImageSurvey)
      requires Valid()
      modifies this, if survey.id in surveys then {surveys[survey.id]} else {}
      ensures Valid()
      ensures primary == NextPrimary(old(primary), survey.id, survey.kind)
      ensures Reselects(old(primary), survey.id, survey.kind) ==>
                surveys == old(surveys) && surveys[survey.id].color == old(survey.color)
      ensures Reselects(old(primary), survey.id, survey.kind) ==>
                var s := surveys[survey.id];
                && s.textures == old(s.textures) && s.view == old(s.view) && s.numIdx == old(s.numIdx)
                && s.vertices == old(s.vertices) && s.idxVertices == old(s.idxVertices)
                && s.sizeVerticesBuf == old(s.sizeVerticesBuf) && s.sizeIdxVerticesBuf == old(s.sizeIdxVerticesBuf)
      ensures !Reselects(old(primary), survey.id, survey.kind) ==>
                surveys == (old(surveys) - Removed(old(primary), survey.kind))[survey.id := survey]
    {
      var id := survey.id;
      if !Reselects(primary, id, survey.kind) {
        AddKeepsConsistent(surveys, primary, survey);
      }
      match primary {
        case Simple(currId) =>
          if survey.kind == ImageSurveyType.Simple && id == currId {
            surveys[currId].SetColor(survey.color);
          } else {
            surveys := surveys - {currId};
            surveys := surveys[id := survey];
            primary := if survey.kind == ImageSurveyType.Simple then ImageSurveyIdx.Simple(id) else Composite([id]);
          }
        case Composite(currIds) =>
          if survey.kind == ImageSurveyType.Simple {
            assert Removed(primary, survey.kind) == set k | k in currIds;
            RemoveComponents(currIds);
            surveys := surveys[id := survey];
            primary := ImageSurveyIdx.Simple(id);
          } else {
            var found := FindComponent(currIds, id);
            if found {
              surveys[id].SetColor(survey.color);
              return;
            }
            surveys := surveys[id := survey];
            primary := Composite(currIds + [id]);
          }
        case None =>
          assert surveys - Removed(primary, survey.kind) == surveys;
          surveys := surveys[id := survey];
          primary := if survey.kind == ImageSurveyType.Simple then ImageSurveyIdx.Simple(id) else Composite([id]);
      }
    }

    /** The loop of `set_simple_hips` that drops every component of a composite. */
    method RemoveComponents(ids: seq<string>)
      modifies this
      ensures surveys == old(surveys) - (set k | k in ids)
      ensures primary == old(primary)
    {
      var i := 0;
      while i < |ids|
        invariant i <= |ids|
        invariant surveys == RemoveEach(old(surveys), ids[..i])
        invariant primary == old(primary)
      {
        assert ids[..i + 1][..i] == ids[..i];
        surveys := surveys - {ids[i]};
        i := i + 1;
      }
      assert ids[..i] == ids;
      RemoveEachIsSetRemoval(old(surveys), ids);
    }

    /**
     * `get_view`: the view the renderer follows. None when no survey is
     * loaded, otherwise the view of the simple survey or of the first
     * component of the composite.
     */
    function GetView(): (v: Option<CellsInView>)
      reads this, surveys.Values
      requires Valid()
      ensures v.None? <==> surveys == map[]
      ensures primary.Simple? ==> v == Some(surveys[primary.id].view)
      ensures primary.Composite? ==> v == Some(surveys[primary.ids[0]].view)
    {
      ViewOf(surveys, primary)
    }
  }

  /** The body of `get_view`, over the fields of `ImageSurveys`. */
  function ViewOf(surveys: map<string, ImageSurvey>, primary: ImageSurveyIdx): Option<CellsInView>
    reads surveys.Values
    requires WellFormed(primary) && surveys.Keys == Named(primary)
  {
    if surveys == map[] then Option.None
    else match primary
      case Simple(id) => Some(surveys[id].view)
      case Composite(ids) => Some(surveys[ids[0]].view)
      case None => Option.None
  }

  /** The search of `set_simple_hips` for `id` among the components of a composite. */
  method FindComponent(ids: seq<string>, id: string) returns (found: bool)
    ensures found <==> id in ids
  {
    var i := 0;
    while i < |ids|
      invariant i <= |ids|
      invariant forall j :: 0 <= j < i ==> ids[j] != id
    {
      if ids[i] == id {
        return true;
      }
      i := i + 1;
    }
    return false;
  }
}
