/**
 * The pinch-zoom component itself: it owns the option object, forwards the
 * zoom-control buttons and the public API to the gesture engine, and re-reads
 * its options whenever Angular reports changed inputs.
 */
module PinchZoom {
  import opened JsValues
  import opened PinchZoomOptions
  import opened ZoomControl

  /** A value the `properties` input accepts: an option object, or a falsy value that is ignored. */
  predicate IsPropertiesInput(v: Value) {
    v.Obj? || !Truthy(v)
  }

  /** Every `properties` entry of a change set carries an accepted value. */
  predicate PropertiesInputsAccepted(changes: seq<Change>) {
    forall i | 0 <= i < |changes| && changes[i].key == PropertiesKey :: IsPropertiesInput(changes[i].currentValue)
  }

  /** `zoomControlScale` holds a number, as its declared type says. */
  predicate HasZoomStep(props: Options) {
    Get(props, "zoomControlScale").Num?
  }

  /** The step of one press on a zoom button. */
  function ZoomStep(props: Options): real
    requires HasZoomStep(props)
  {
    Get(props, "zoomControlScale").n
  }

  /**
   * The options renameProperties enumerates in the flattened value: the own
   * properties of an object, and none of a falsy value (which Object.assign
   * skips as well).
   */
  function OwnOptions(flat: Value): Options {
    if flat.Obj? then flat.fields else map[]
  }

  class PinchZoomComponent {
    /** The option object every decision reads. */
    var properties: Options
    /** What the gesture engine currently reports. */
    var engine: EngineView
    /** The calls made on the gesture engine, oldest first. */
    var requests: seq<Command>

    /** The component starts from a copy of the default options. */
    constructor (defaults: Options, engine: EngineView)
      ensures properties == defaults && this.engine == engine && requests == []
    {
      this.engine := engine;
      requests := [];
      properties := map[];
      new;
      ApplyOptionsDefault(defaults, map[]);
    }

    /** The `properties` input setter: a falsy value is ignored, an object replaces the options. */
    method SetProperties(value: Value)
      requires IsPropertiesInput(value)
      modifies this`properties
      ensures Truthy(value) ==> properties == value.fields
      ensures !Truthy(value) ==> properties == old(properties)
    {
      if Truthy(value) {
        properties := value.fields;
      }
    }

    /** applyOptionsDefault: the options laid over the defaults, stored through the setter. */
    method ApplyOptionsDefault(defaults: Options, options: Options)
      modifies this`properties
      ensures properties == WithDefaults(defaults, options)
    {
      SetProperties(Obj(WithDefaults(defaults, options)));
    }

    /**
     * ngOnChanges: flatten the change set, rename legacy options, lay the
     * result over the defaults. When flattening throws, the options stay as
     * they were and the exception leaves the hook (`ok` is false).
     */
    method OnChanges(changes: seq<Change>, defaults: Options, table: map<string, string>)
      returns (ok: bool, ghost flat: Value, ghost renamed: Options)
      requires DistinctKeys(changes) && PropertiesInputsAccepted(changes) && TargetsNotLegacy(table)
      modifies this`properties
      ensures !ok <==> !Base(changes, |changes|).Obj? && LaterKeys(changes, |changes|) != {}
      ensures !ok ==> properties == old(properties)
      ensures ok ==> IsFlattening(changes, |changes|, flat)
      ensures ok ==> IsRenaming(OwnOptions(flat), table, renamed)
      ensures ok ==> properties == WithDefaults(defaults, renamed)
      ensures ok ==> defaults.Keys <= properties.Keys
      ensures ok ==> forall k | k in properties && k !in defaults :: !IsLegacy(table, k)
      ensures ok ==> forall j | PropertiesIndex(changes, |changes|) < j < |changes|
                       && !IsLegacy(table, changes[j].key) && changes[j].key !in RenameTargets(table, OwnOptions(flat).Keys)
                       :: changes[j].key in properties && properties[changes[j].key] == changes[j].currentValue
      ensures ok && Base(changes, |changes|).Obj? ==>
                forall k | k in Base(changes, |changes|).fields && k !in LaterKeys(changes, |changes|)
                           && !IsLegacy(table, k) && k !in RenameTargets(table, OwnOptions(flat).Keys)
                  :: k in properties && properties[k] == Base(changes, |changes|).fields[k]
      ensures ok ==> forall k | k in defaults && k !in RenameTargets(table, OwnOptions(flat).Keys)
                                && k !in LaterKeys(changes, |changes|)
                                && !(Base(changes, |changes|).Obj? && k in Base(changes, |changes|).fields)
                       :: properties[k] == defaults[k]
    {
      var r := GetProperties(changes);
      if r.TypeError? {
        return false, Undefined, map[];
      }
      var changed := OwnOptions(r.value);
      var renamedOptions := RenameProperties(changed, table);
      ApplyOptionsDefault(defaults, renamedOptions);
      ok, flat, renamed := true, r.value, renamedOptions;
      forall k | k in renamed
        ensures !IsLegacy(table, k)
      {
        if k !in changed || IsLegacy(table, k) {
          var j :| j in changed && IsLegacy(table, j) && table[j] == k;
        }
      }
      forall j | PropertiesIndex(changes, |changes|) < j < |changes|
                 && !IsLegacy(table, changes[j].key) && changes[j].key !in RenameTargets(table, changed.Keys)
        ensures changes[j].key in properties && properties[changes[j].key] == changes[j].currentValue
      {
        var key := changes[j].key;
        assert key in LaterKeys(changes, |changes|);
        assert key in changed;
      }
      var base := Base(changes, |changes|);
      forall k | base.Obj? && k in base.fields && k !in LaterKeys(changes, |changes|)
                 && !IsLegacy(table, k) && k !in RenameTargets(table, changed.Keys)
        ensures k in properties && properties[k] == base.fields[k]
      {
        assert k in changed;
      }
      forall k | k in defaults && k !in RenameTargets(table, changed.Keys) && k !in LaterKeys(changes, |changes|)
                 && !(base.Obj? && k in base.fields)
        ensures properties[k] == defaults[k]
      {
        assert k !in changed;
        assert k !in renamed;
      }
    }

    /** zoomIn: one step in, clamped to the engine's limit, unless the limit is reached. */
    method ZoomIn()
      requires HasZoomStep(properties)
      modifies this`requests
      ensures requests == old(requests) + Issued(ZoomInRequest(engine, ZoomStep(properties)))
    {
      if engine.IsZoomLimitReached() {
        return;
      }
      var newScale := engine.scale + ZoomStep(properties);
      if newScale > engine.maxScale {
        newScale := engine.maxScale;
      }
      SetZoom(newScale, None);
    }

    /** zoomOut: one step out, or a reset once that reaches scale 1, unless not zoomed in. */
    method ZoomOut()
      requires HasZoomStep(properties)
      modifies this`requests
      ensures requests == old(requests) + Issued(ZoomOutRequest(engine, ZoomStep(properties)))
    {
      if engine.scale <= 1.0 {
        return;
      }
      var newScale := engine.scale - ZoomStep(properties);
      if newScale <= 1.0 {
        Reset();
      } else {
        SetZoom(newScale, None);
      }
    }

    /** setZoom: forwarded to the engine. */
    method SetZoom(scale: real, center: Option<seq<real>>)
      modifies this`requests
      ensures requests == old(requests) + [Command.SetZoom(scale, center)]
    {
      requests := requests + [Command.SetZoom(scale, center)];
    }

    /** setTransform: forwarded to the engine; absent fields keep the engine's current values. */
    method SetTransform(x: Option<real>, y: Option<real>, scale: Option<real>, transitionDuration: Option<real>)
      modifies this`requests
      ensures requests == old(requests) + [Command.SetTransform(x, y, scale, transitionDuration)]
    {
      requests := requests + [Command.SetTransform(x, y, scale, transitionDuration)];
    }

    /** reset: the engine's resetScale. */
    method Reset()
      modifies this`requests
      ensures requests == old(requests) + [ResetScale]
    {
      requests := requests + [ResetScale];
    }

    /** toggleZoom: forwarded to the engine. */
    method ToggleZoom()
      modifies this`requests
      ensures requests == old(requests) + [Command.ToggleZoom]
    {
      requests := requests + [Command.ToggleZoom];
    }

    /** pollLimitZoom: forwarded to the engine. */
    method PollLimitZoom()
      modifies this`requests
      ensures requests == old(requests) + [Command.PollLimitZoom]
    {
      requests := requests + [Command.PollLimitZoom];
    }

    /** destroy: forwarded to the engine. */
    method Destroy()
      modifies this`requests
      ensures requests == old(requests) + [Command.Destroy]
    {
      requests := requests + [Command.Destroy];
    }
  }
}
