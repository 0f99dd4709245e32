/** `ModelAndView`: the name of a template and the attributes it is rendered with. */
module Templates {
  import opened Wrappers
  import opened Dicts
  import opened Values

  class ModelAndView {
    var viewName: string
    var model: Dict<string, Value>

    /** No attribute name occurs twice, as in any Python dictionary. */
    predicate Valid()
      reads this
    {
      Dicts.Valid(model)
    }

    /** `ModelAndView(view_name, model=None)`; a missing or empty model becomes `{}`. */
    constructor (viewName: string, model: Option<Dict<string, Value>>)
      ensures this.viewName == viewName
      ensures this.model == if model.Some? then model.value else []
      ensures GetViewName() == viewName
      ensures forall k :: Get(GetModel(), k) == if model.Some? then Get(model.value, k) else None
      ensures model.None? || Dicts.Valid(model.value) ==> Valid()
    {
      this.viewName := viewName;
      this.model := model.GetOr([]);
    }

    /** `add_object(key, value)`: sets one attribute and returns the same object for chaining. */
    method AddObject(key: string, value: Value) returns (r: ModelAndView)
      modifies this
      ensures r == this && viewName == old(viewName)
      ensures model == Set(old(model), key, value)
      ensures GetViewName() == old(GetViewName())
      ensures Get(GetModel(), key) == Some(value)
      ensures forall k :: k != key ==> Get(GetModel(), k) == Get(old(GetModel()), k)
      ensures old(Valid()) ==> Valid()
    {
      model := Set(model, key, value);
      forall k ensures Get(model, k) == if k == key then Some(value) else Get(old(model), k) {
        GetSet(old(model), key, value, k);
      }
      if Dicts.Valid(old(model)) {
        SetValid(old(model), key, value);
      }
      r := this;
    }

    /** `add_all_objects(objects)`: the model is updated with every given attribute, which win over existing ones. */
    method AddAllObjects(objects: Dict<string, Value>) returns (r: ModelAndView)
      requires Dicts.Valid(objects)
      modifies this
      ensures r == this && viewName == old(viewName)
      ensures model == Update(old(model), objects)
      ensures GetViewName() == old(GetViewName())
      ensures forall k :: Get(GetModel(), k) == if HasKey(objects, k) then Get(objects, k) else Get(old(GetModel()), k)
      ensures old(Valid()) ==> Valid()
    {
      model := Update(model, objects);
      forall k ensures Get(model, k) == if HasKey(objects, k) then Get(objects, k) else Get(old(model), k) {
        GetUpdate(old(model), objects, k);
      }
      if Dicts.Valid(old(model)) {
        UpdateValid(old(model), objects);
      }
      r := this;
    }

    /** `get_model()` */
    function GetModel(): (m: Dict<string, Value>)
      reads this
      ensures forall k :: Get(m, k) == Get(model, k)
    {
      model
    }

    /** `get_view_name()` */
    function GetViewName(): (v: string)
      reads this
      ensures v == viewName
    {
      viewName
    }
  }
}
