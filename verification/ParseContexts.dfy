/**
 The parse context: `ctx->parent`, `ctx->setting` and the string being collected, and the
 semantic actions as methods that change it and the tree. Their preconditions say what each
 action dereferences.
 */
module ParseContexts {
  import opened Options
  import opened Tokens
  import opened Settings
  import opened Actions
  import opened TreeInvariant
  import opened Operations
  import opened Configs

  /** A setting without a type yet. */
  predicate Untyped(c: Ctx) {
    Live(c.st, c.setting) && c.st[c.setting].stype == TypeNone
  }

  predicate OpensAggregate(n: int) {
    n in {13, 15, 38}
  }

  predicate SetsValue(n: int) {
    23 <= n <= 29
  }

  /** The action of rule `n` dereferences no null pointer and no freed setting. */
  ghost predicate Safe(n: int, c: Ctx) {
    && WellFormed(c.st) && Live(c.st, c.parent)
    && (OpensAggregate(n) ==> c.st[c.parent].stype == TypeList || Untyped(c))
    && (SetsValue(n) ==> c.st[c.parent].stype in {TypeArray, TypeList} || Untyped(c))
  }

  class ParseContext {
    const config: Config
    var parent: Id
    var setting: Id
    var str: Option<string>

    ghost function Value(): Ctx
      reads this, config
    {
      Ctx(config.store, parent, setting, str)
    }

    /** The context that `__config_read` sets up. */
    constructor (config: Config)
      ensures this.config == config && Value() == Ctx(config.store, ROOT, ROOT, None)
    {
      this.config := config;
      parent, setting, str := ROOT, ROOT, None;
    }

    /** Rule 11. */
    method NewSetting(name: string) returns (ok: bool)
      requires Safe(11, Value())
      modifies this, config
      ensures config.Valid()
      ensures match Actions.NewSetting(old(Value()), name)
              case None => !ok
              case Some(c) => ok && Value() == c
    {
      setting := config.Add(parent, Some(name), TypeNone);
      ok := setting != NULL;
    }

    /** Rules 13, 15 and 38. */
    method Open(t: SettingType)
      requires Safe(13, Value()) && IsAggregate(t)
      modifies this, config
      ensures config.Valid() && Actions.Open(old(Value()), t) == Some(Value())
    {
      if config.store[parent].stype == TypeList {
        parent := config.Add(parent, None, t);
      } else {
        LiveIsTyped(config.store, setting);
        UpdateKeeps(config.store, setting, config.store[setting].(stype := t));
        config.store := config.store[setting := config.store[setting].(stype := t)];
        parent := setting;
        setting := NULL;
      }
    }

    /** Rules 14, 16 and 39. */
    method Close()
      requires Safe(14, Value())
      modifies this
      ensures Actions.Close(old(Value())) == Some(Value())
    {
      parent := config.store[parent].parent;
    }

    /** Rules 21 and 22: `parsectx_append_string`. */
    method AppendString(s: string)
      modifies this
      ensures Value() == old(Value()).(str := Append(old(str), s))
    {
      str := Some((if str == None then "" else str.value) + s);
    }

    /** Rules 23 to 28, and 29 once the string is taken. */
    method SetValue(v: Scalar, format: int) returns (ok: bool)
      requires Safe(23, Value())
      modifies config
      ensures config.Valid()
      ensures match Actions.SetValue(old(Value()), v, format)
              case None => !ok
              case Some(c) => ok && Value() == c
    {
      LiveIsTyped(config.store, parent);
      if config.store[parent].stype in {TypeArray, TypeList} {
        var e := config.SetElem(parent, -1, v);
        if e == NULL {
          return false;
        }
        var done := config.SetFormat(e, format);
      } else {
        var done := config.Set(setting, v);
        done := config.SetFormat(setting, format);
      }
      ok := true;
    }

    /** The action of rule `n`; false when it aborts the parse. */
    method Act(n: int, top: Token) returns (ok: bool)
      requires Safe(n, Value())
      modifies this, config
      ensures config.Valid()
      ensures match Action(n, top, old(Value()))
              case None => !ok
              case Some(c) => ok && Value() == c
    {
      ok := true;
      if n == 11 {
        ok := NewSetting(TextOf(top));
      } else if n == 13 {
        Open(TypeArray);
      } else if n == 15 {
        Open(TypeList);
      } else if n == 38 {
        Open(TypeGroup);
      } else if n in {14, 16, 39} {
        Close();
      } else if n in {21, 22} {
        AppendString(TextOf(top));
      } else if 23 <= n <= 28 {
        ok := SetValue(ScalarOf(top).0, ScalarOf(top).1);
      } else if n == 29 {
        var s := str;
        str := None;
        ok := SetValue(SString(s), FORMAT_DEFAULT);
      }
    }
  }
}
