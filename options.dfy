/**
 * The option store of `src/options.js`: a module-wide options object that
 * starts as a copy of the frozen defaults, is overwritten key by key by
 * `assignOptions` (`Object.assign`) and put back to the defaults by
 * `resetOptions`; `opts()` hands out the live object itself.
 *
 * Every field is optional in the source's type, so an assignment may also
 * store `undefined`, which is `None` here.
 */
module Options {
  import opened Wrappers

  datatype Key = Jsdoc | InterfaceRecords | ModuleExports | Quiet

  /** The value of every field of an options object. */
  datatype OptionValues = OptionValues(
    jsdoc: Option<bool>,
    interfaceRecords: Option<bool>,
    moduleExports: Option<bool>,
    quiet: Option<bool>)
  {
    function Get(k: Key): Option<bool>
    {
      match k
      case Jsdoc => jsdoc
      case InterfaceRecords => interfaceRecords
      case ModuleExports => moduleExports
      case Quiet => quiet
    }
  }

  /** A `$Shape<Options>` argument: the keys the object has, each with its value. */
  type Shape = map<Key, Option<bool>>

  /** `defaultOptions`: frozen, so no operation below can change it. */
  const DefaultOptions: OptionValues := OptionValues(Some(true), Some(false), Some(true), Some(false))

  /** How a reader of a field treats it in a condition: only `true` counts. */
  predicate Truthy(v: Option<bool>)
  {
    v == Some(true)
  }

  /** The keys of an options object paired with its values, as `Object.assign` copies them. */
  function AsShape(o: OptionValues): Shape
  {
    map[Jsdoc := o.jsdoc, InterfaceRecords := o.interfaceRecords,
        ModuleExports := o.moduleExports, Quiet := o.quiet]
  }

  /** `Object.assign(target, source)` restricted to the four option fields. */
  function Assign(o: OptionValues, s: Shape): (r: OptionValues)
    ensures forall k :: r.Get(k) == if k in s then s[k] else o.Get(k)
  {
    OptionValues(
      if Jsdoc in s then s[Jsdoc] else o.jsdoc,
      if InterfaceRecords in s then s[InterfaceRecords] else o.interfaceRecords,
      if ModuleExports in s then s[ModuleExports] else o.moduleExports,
      if Quiet in s then s[Quiet] else o.quiet)
  }

  /** Two option values that agree on every key are equal. */
  lemma SameFields(a: OptionValues, b: OptionValues)
    requires forall k :: a.Get(k) == b.Get(k)
    ensures a == b
  {
    assert a.Get(Jsdoc) == b.Get(Jsdoc);
    assert a.Get(InterfaceRecords) == b.Get(InterfaceRecords);
    assert a.Get(ModuleExports) == b.Get(ModuleExports);
    assert a.Get(Quiet) == b.Get(Quiet);
  }

  /** The shape of an options object has every key, with that object's value. */
  lemma AsShapeFields(o: OptionValues)
    ensures forall k :: k in AsShape(o) && AsShape(o)[k] == o.Get(k)
  {
    forall k
      ensures k in AsShape(o) && AsShape(o)[k] == o.Get(k)
    {
      match k
      case Jsdoc =>
      case InterfaceRecords =>
      case ModuleExports =>
      case Quiet =>
    }
  }

  /** Assigning a whole options object replaces every field, whatever was there. */
  lemma AssignAll(o: OptionValues, d: OptionValues)
    ensures Assign(o, AsShape(d)) == d
  {
    AsShapeFields(d);
    SameFields(Assign(o, AsShape(d)), d);
  }

  /** Assigning the same shape twice is assigning it once. */
  lemma AssignIdempotent(o: OptionValues, s: Shape)
    ensures Assign(Assign(o, s), s) == Assign(o, s)
  {
    SameFields(Assign(Assign(o, s), s), Assign(o, s));
  }

  /** Two assignments in a row are one assignment of their merge, the later one winning. */
  lemma AssignLastWriteWins(o: OptionValues, a: Shape, b: Shape)
    ensures Assign(Assign(o, a), b) == Assign(o, a + b)
  {
    SameFields(Assign(Assign(o, a), b), Assign(o, a + b));
  }

  /** A reset followed by an assignment gives the defaults overridden by the assignment, whatever came before. */
  lemma ResetThenAssign(o: OptionValues, s: Shape)
    ensures Assign(Assign(o, AsShape(DefaultOptions)), s) == Assign(DefaultOptions, s)
    ensures forall k :: k !in s ==> Assign(Assign(o, AsShape(DefaultOptions)), s).Get(k) == DefaultOptions.Get(k)
  {
    AssignAll(o, DefaultOptions);
  }

  /** The module-wide `options` object. */
  class OptionsState {
    var jsdoc: Option<bool>
    var interfaceRecords: Option<bool>
    var moduleExports: Option<bool>
    var quiet: Option<bool>

    /** The current values of the four fields. */
    function Values(): OptionValues
      reads this
    {
      OptionValues(jsdoc, interfaceRecords, moduleExports, quiet)
    }

    /** `let options = { ...defaultOptions }`. */
    constructor ()
      ensures Values() == DefaultOptions
    {
      jsdoc := DefaultOptions.jsdoc;
      interfaceRecords := DefaultOptions.interfaceRecords;
      moduleExports := DefaultOptions.moduleExports;
      quiet := DefaultOptions.quiet;
    }

    /** `assignOptions(newOptions)`: each key present in `newOptions` is copied over. */
    method AssignOptions(newOptions: Shape)
      modifies this
      ensures Values() == Assign(old(Values()), newOptions)
      ensures forall k :: k !in newOptions ==> Values().Get(k) == old(Values()).Get(k)
    {
      if Jsdoc in newOptions {
        jsdoc := newOptions[Jsdoc];
      }
      if InterfaceRecords in newOptions {
        interfaceRecords := newOptions[InterfaceRecords];
      }
      if ModuleExports in newOptions {
        moduleExports := newOptions[ModuleExports];
      }
      if Quiet in newOptions {
        quiet := newOptions[Quiet];
      }
    }

    /** `resetOptions()`: the defaults are copied over every field. */
    method ResetOptions()
      modifies this
      ensures Values() == DefaultOptions
    {
      AssignOptions(AsShape(DefaultOptions));
      AssignAll(old(Values()), DefaultOptions);
    }

    /** `opts()`: the live object, not a copy, so later assignments show through it. */
    method Opts() returns (o: OptionsState)
      ensures o == this
    {
      o := this;
    }
  }

  /**
   * What a caller sees through one `opts()` result: the defaults at first, the
   * assigned keys after `assignOptions`, the defaults again after a reset and
   * a reset repeated changes nothing.
   */
  method OptionsLifecycle(s: Shape) returns (initial: OptionValues, afterAssign: OptionValues, afterReset: OptionValues, resetTwice: OptionValues)
    ensures initial == DefaultOptions
    ensures afterAssign == Assign(DefaultOptions, s)
    ensures afterReset == DefaultOptions && resetTwice == afterReset
  {
    var store := new OptionsState();
    var live := store.Opts();
    initial := live.Values();
    store.AssignOptions(s);
    afterAssign := live.Values();
    store.ResetOptions();
    afterReset := live.Values();
    store.ResetOptions();
    resetTwice := live.Values();
  }
}
