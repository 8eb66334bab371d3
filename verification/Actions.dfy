/**
 The semantic actions of the parser, which build the tree of settings through `ctx->parent`
 and `ctx->setting`, as functions of the parse context.
 */
module Actions {
  import opened Options
  import opened Tokens
  import opened Settings

  /** The store, `ctx->parent`, `ctx->setting` and the string collected so far (None is NULL). */
  datatype Ctx = Ctx(st: Store, parent: Id, setting: Id, str: Option<string>)

  predicate Sane(c: Ctx) {
    Ordered(c.st) && 0 <= c.parent < |c.st|
  }

  predicate InVector(c: Ctx)
    requires Sane(c)
  {
    c.st[c.parent].stype in {TypeArray, TypeList}
  }

  predicate InList(c: Ctx)
    requires Sane(c)
  {
    c.st[c.parent].stype == TypeList
  }

  /** Rule 11: a new setting of no type yet; a name that is taken aborts the parse. */
  function NewSetting(c: Ctx, name: string): Option<Ctx> {
    if !Sane(c) then None else
    match Add(c.st, c.parent, Some(name), TypeNone)
    case None => None
    case Some(st) => Some(c.(st := st, setting := |c.st|))
  }

  /** Rules 13, 15 and 38: an aggregate begins, in a list as a new element, else as the setting. */
  function Open(c: Ctx, t: SettingType): Option<Ctx> {
    if !Sane(c) || !IsAggregate(t) then None
    else if InList(c) then
      match Add(c.st, c.parent, None, t)
      case None => None
      case Some(st) => Some(c.(st := st, parent := |c.st|))
    else if 0 <= c.setting < |c.st| then
      Some(c.(st := Update(c.st, c.setting, c.st[c.setting].(stype := t)), parent := c.setting, setting := NULL))
    else None
  }

  /** Rules 14, 16 and 39: back to the parent of the aggregate. */
  function Close(c: Ctx): Option<Ctx> {
    if !Sane(c) then None else Some(c.(parent := c.st[c.parent].parent))
  }

  /** Rules 23 to 29: a value, in an array or list as a new element, else of the setting. */
  function SetValue(c: Ctx, v: Scalar, format: int): Option<Ctx> {
    if !Sane(c) then None
    else if InVector(c) then
      match AppendElem(c.st, c.parent, v)
      case None => None
      case Some(st) => Some(c.(st := Update(st, |c.st|, SetFormat(st[|c.st|], format))))
    else if 0 <= c.setting < |c.st| then
      var s := match Assign(c.st[c.setting], v) case None => c.st[c.setting] case Some(s) => s;
      Some(c.(st := Update(c.st, c.setting, SetFormat(s, format))))
    else None
  }

  /** The value and format that a scalar token stands for. */
  function ScalarOf(tok: Token): (Scalar, int) {
    match tok
    case TokBoolean(b) => (SBool(b), FORMAT_DEFAULT)
    case TokInteger(i) => (SInt(i), FORMAT_DEFAULT)
    case TokInteger64(l) => (SInt64(l), FORMAT_DEFAULT)
    case TokHex(i) => (SInt(i), FORMAT_HEX)
    case TokHex64(l) => (SInt64(l), FORMAT_HEX)
    case TokFloat(f) => (SFloat(f), FORMAT_DEFAULT)
    case _ => (SInt(0), FORMAT_DEFAULT)
  }

  function TextOf(tok: Token): string {
    match tok
    case TokString(s) => s
    case TokName(s) => s
    case _ => []
  }

  function Append(str: Option<string>, s: string): Option<string> {
    Some((match str case None => [] case Some(t) => t) + s)
  }

  /**
   The action of rule `n` with semantic value `top` on top of the value stack. None is an
   abort; inside the functions above it also stands for null dereferences, which never happen.
   */
  function Action(n: int, top: Token, c: Ctx): Option<Ctx> {
    match n
    case 11 => NewSetting(c, TextOf(top))
    case 13 => Open(c, TypeArray)
    case 15 => Open(c, TypeList)
    case 38 => Open(c, TypeGroup)
    case 14 => Close(c)
    case 16 => Close(c)
    case 39 => Close(c)
    case 21 => Some(c.(str := Append(c.str, TextOf(top))))
    case 22 => Some(c.(str := Append(c.str, TextOf(top))))
    case 23 => SetValue(c, ScalarOf(top).0, ScalarOf(top).1)
    case 24 => SetValue(c, ScalarOf(top).0, ScalarOf(top).1)
    case 25 => SetValue(c, ScalarOf(top).0, ScalarOf(top).1)
    case 26 => SetValue(c, ScalarOf(top).0, ScalarOf(top).1)
    case 27 => SetValue(c, ScalarOf(top).0, ScalarOf(top).1)
    case 28 => SetValue(c, ScalarOf(top).0, ScalarOf(top).1)
    case 29 => SetValue(c.(str := None), SString(c.str), FORMAT_DEFAULT)
    case _ => Some(c)
  }

  /** The store after `config_init`: the root group alone. */
  const ROOT: Id := 0
  const INITIAL_STORE: Store := [Setting(None, TypeGroup, FORMAT_DEFAULT, Zero(TypeGroup), [], NULL, false)]
  const INITIAL: Ctx := Ctx(INITIAL_STORE, ROOT, ROOT, None)
}
