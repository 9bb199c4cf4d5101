/** What a line of a .config file does to the user values, for lines that no writer would produce as well. */
module ConfigLoading {
  import opened Basics
  import opened KconfigModel
  import opened KconfigEngine
  import opened KconfigAssign
  import opened ConfigText
  import opened ConfigFile

  /** The value that a bool or tristate is given by its first letter; m is for tristates only. */
  function Letter(typ: SymType, text: string): Option<Tri> {
    if text == "" then None
    else if text[0] == 'n' then Some(0)
    else if text[0] == 'm' && typ == Tristate then Some(1)
    else if text[0] == 'y' then Some(2)
    else None
  }

  /**
    `<name>=<text>` for a bool or tristate: stores the value of the first letter, and for a member of a
    choice also the mode, and the selection if it is y. Other texts change nothing.
    */
  lemma {:induction false} LoadTri(cfg: Config, prefix: string, st: Loading, i: nat, text: string)
    requires ValidLoading(cfg, st) && Named(cfg, prefix) && i < |cfg.items| && cfg.At(i).Symbol? && IsBoolTri(cfg.At(i).typ)
    requires text == "" || !IsSpace(text[|text| - 1])
    ensures var st' := LoadLine(cfg, prefix, st, prefix + cfg.At(i).name + "=" + text);
      match Letter(cfg.At(i).typ, text)
      case None => st' == st
      case Some(t) => Stored(cfg, st, st', i, t)
  {
    LoadSetEntry(cfg, prefix, st, i, text);
    hide LoadLine, WellFormed, Named, Stored, AssignTri;
    match Letter(cfg.At(i).typ, text)
    case None =>
    case Some(t) =>
      assert text[..1] == [text[0]] == TriToStr(t);
      TriStored(cfg, st, i, t);
  }

  /** Symbol `i` was given the value `t`, and so was its choice as far as it is concerned. */
  ghost predicate Stored(cfg: Config, st: Loading, st': Loading, i: nat, t: Tri)
    requires ValidLoading(cfg, st) && ValidLoading(cfg, st') && i < |cfg.items| && cfg.At(i).Symbol?
  {
    var choice := cfg.At(i).choice;
    && st'.user[i] == UserValue(Some(t), None, None) && st'.flags[i]
    && (forall k :: 0 <= k < |st.user| && k != i && choice != Some(k) ==> st'.user[k] == st.user[k] && st'.flags[k] == st.flags[k])
    && (choice.Some? ==>
          var c := choice.value;
          c < |st.user| && c != i && st'.user[c].str == st.user[c].str
          && st'.user[c].sel == (if t == 2 then Some(i) else st.user[c].sel)
          && (t > 0 && AdmitsMode(cfg.At(c).typ, t) ==> st'.user[c].tri == Some(t) && st'.flags[c])
          && (t == 0 ==> st'.user[c].tri == st.user[c].tri))
  }

  lemma {:induction false} TriStored(cfg: Config, st: Loading, i: nat, t: Tri)
    requires ValidLoading(cfg, st) && i < |cfg.items| && cfg.At(i).Symbol? && AdmitsMode(cfg.At(i).typ, t)
    ensures Stored(cfg, st, AssignTri(cfg, st, i, TriToStr(t)), i, t)
  {
    hide WellFormed, SetUser, SetFlags, AssignTri, Assign, AssignMode, TriToStr;
    if cfg.At(i).choice.Some? {
      ChoiceThere(cfg, i);
      ModeStored(cfg, st, cfg.At(i).choice.value, t);
    }
    var mid := ModeFirst(cfg, st, i, t);
    TriAssigned(cfg, st, i, t);
    SetStoresTri(cfg, mid.user, i, t);
    FlagStored(cfg, mid.flags, i, t);
  }

  /** The mode of the choice, if there is one, is set before the symbol. */
  ghost function ModeFirst(cfg: Config, st: Loading, i: nat, t: Tri): (r: Loading)
    requires ValidLoading(cfg, st) && i < |cfg.items| && cfg.At(i).Symbol?
    ensures ValidLoading(cfg, r)
  {
    if cfg.At(i).choice.Some? && t != 0 then
      ChoiceThere(cfg, i);
      AssignMode(cfg, st, cfg.At(i).choice.value, StrV(TriToStr(t)))
    else st
  }

  lemma {:induction false} TriAssigned(cfg: Config, st: Loading, i: nat, t: Tri)
    requires ValidLoading(cfg, st) && i < |cfg.items| && cfg.At(i).Symbol? && IsBoolTri(cfg.At(i).typ)
    ensures var mid := ModeFirst(cfg, st, i, t);
      AssignTri(cfg, st, i, TriToStr(t)) ==
      Loading(SetUser(cfg, mid.user, i, StrV(TriToStr(t))), SetFlags(cfg, mid.flags, i, StrV(TriToStr(t))))
  {
    hide WellFormed, SetUser, SetFlags, SetMode, SetModeFlags;
    LettersDiffer();
  }

  lemma {:induction false} ChoiceThere(cfg: Config, i: nat)
    requires WellFormed(cfg) && i < |cfg.items| && cfg.At(i).Symbol? && cfg.At(i).choice.Some?
    ensures cfg.At(i).choice.value < |cfg.items| && cfg.At(cfg.At(i).choice.value).Choice?
  {
    assert ItemWellFormed(cfg, i);
  }

  lemma {:induction false} ModeStored(cfg: Config, st: Loading, c: nat, t: Tri)
    requires ValidLoading(cfg, st) && c < |cfg.items| && cfg.At(c).Choice?
    ensures var st' := AssignMode(cfg, st, c, StrV(TriToStr(t)));
      && st'.user[c].str == st.user[c].str && st'.user[c].sel == st.user[c].sel
      && (AdmitsMode(cfg.At(c).typ, t) ==> st'.user[c].tri == Some(t) && st'.flags[c])
      && forall k :: 0 <= k < |st.user| && k != c ==> st'.user[k] == st.user[k] && st'.flags[k] == st.flags[k]
  {
    hide WellFormed;
    LettersDiffer();
  }

  lemma {:induction false} FlagStored(cfg: Config, flags: seq<bool>, i: nat, t: Tri)
    requires |flags| == |cfg.items| && i < |flags| && cfg.At(i).Symbol? && AdmitsMode(cfg.At(i).typ, t)
    ensures var f := SetFlags(cfg, flags, i, StrV(TriToStr(t)));
      f[i] && forall k :: 0 <= k < |flags| && k != i ==> f[k] == (flags[k] || (t == 2 && cfg.At(i).choice == Some(k)))
  {
    LettersDiffer();
  }

  /** The modes that a choice of a type can be set to. */
  predicate AdmitsMode(typ: SymType, t: Tri) { typ == Tristate || (typ == Bool && t != 1) }

  lemma {:induction false} LettersDiffer()
    ensures "n" != "m" && "n" != "y" && "m" != "y"
  {
    assert "n"[0] == 'n' && "m"[0] == 'm' && "y"[0] == 'y';
  }

  /** `# <name> is not set` stores n, and says nothing about anything but bools and tristates. */
  lemma {:induction false} LoadUnset(cfg: Config, prefix: string, st: Loading, i: nat)
    requires ValidLoading(cfg, st) && Named(cfg, prefix) && i < |cfg.items| && cfg.At(i).Symbol?
    ensures var st' := LoadLine(cfg, prefix, st, "# " + prefix + cfg.At(i).name + " is not set");
      if IsBoolTri(cfg.At(i).typ) then
        st' == Loading(st.user[i := UserValue(Some(0), None, None)], st.flags[i := true])
      else st' == st
  {
    var line := UnsetLine(prefix, cfg.At(i).name);
    assert line[|line| - 1] == 't' && RStrip(line) == line;
    UnsetLineMatches(prefix, cfg.At(i).name);
    FindNamed(cfg, prefix, i);
    hide MatchSet, MatchUnset, FindSymbol, Named, WellFormed;
  }

  /** Lines about names that are not symbols change nothing. */
  lemma {:induction false} LoadUnknown(cfg: Config, prefix: string, st: Loading, name: string, text: string)
    requires ValidLoading(cfg, st) && AllWord(prefix) && IsName(name) && (text == "" || !IsSpace(text[|text| - 1]))
    requires forall i :: 0 <= i < |cfg.items| && cfg.At(i).Symbol? ==> cfg.At(i).name != name
    ensures LoadLine(cfg, prefix, st, prefix + name + "=" + text) == st
    ensures LoadLine(cfg, prefix, st, "# " + prefix + name + " is not set") == st
  {
    RStripSetLine(prefix, name, text);
    SetLineMatches(prefix, name, text);
    UnsetLineMatches(prefix, name);
    var line := UnsetLine(prefix, name);
    assert line[|line| - 1] == 't' && RStrip(line) == line;
    hide MatchSet, MatchUnset, WellFormed, AllWord, IsName;
  }

  /** The last line about a symbol decides: a file is loaded line by line. */
  lemma {:induction false} LoadConcat(cfg: Config, prefix: string, st: Loading, a: seq<string>, b: seq<string>)
    requires ValidLoading(cfg, st)
    ensures LoadLines(cfg, prefix, st, a + b) == LoadLines(cfg, prefix, LoadLines(cfg, prefix, st, a), b)
    decreases |a|
  {
    hide LoadLine;
    if a == [] {
      assert a + b == b;
    } else {
      assert (a + b)[1..] == a[1..] + b;
      LoadConcat(cfg, prefix, LoadLine(cfg, prefix, st, a[0]), a[1..], b);
    }
  }
}
