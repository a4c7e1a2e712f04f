/**
 * Python format strings as used by the node library (`FORMATSTRINGS`) and by
 * consumers (`formatString`): literal text interleaved with positional fields
 * `{0}`, `{1}`, ...  `template.format(*args)` replaces field `{k}` by `args[k]`
 * and raises `IndexError` at the first field whose index is out of range;
 * surplus arguments are ignored.
 */
module Templates {
  import opened Wrappers

  /** One piece of a parsed format string. */
  datatype Piece = Lit(text: string) | Slot(index: nat)

  type Template = seq<Piece>

  /** `IndexError: Replacement index k out of range`. */
  datatype FormatError = IndexError(index: nat)

  /** Every positional field of `t` refers to one of the first `n` arguments. */
  predicate SlotsBelow(t: Template, n: nat)
  {
    forall i :: 0 <= i < |t| ==> (t[i].Slot? ==> t[i].index < n)
  }

  /** `t.format(*args)`: fields are substituted left to right; the first bad index raises. */
  function Format(t: Template, args: seq<string>): (r: Result<string, FormatError>)
    ensures r.Ok? <==> SlotsBelow(t, |args|)
    ensures r.Err? ==> r.error.index >= |args| && Slot(r.error.index) in t
    ensures r.Err? ==> exists i :: 0 <= i < |t| && t[i] == Slot(r.error.index) && SlotsBelow(t[..i], |args|)
  {
    if t == [] then Ok("")
    else
      match t[0]
      case Slot(k) =>
        if k >= |args| then assert SlotsBelow(t[..0], |args|); Err(IndexError(k))
        else (match Format(t[1..], args)
              case Ok(rest) => Ok(args[k] + rest)
              case Err(e) => FirstBadShift(t, |args|, e.index); Err(e))
      case Lit(s) =>
        match Format(t[1..], args)
        case Ok(rest) => Ok(s + rest)
        case Err(e) => FirstBadShift(t, |args|, e.index); Err(e)
  }

  /** A first bad field of `t[1..]` is a first bad field of `t` when `t[0]` is not bad. */
  lemma FirstBadShift(t: Template, n: nat, k: nat)
    requires t != [] && !(t[0].Slot? && t[0].index >= n)
    requires exists i :: 0 <= i < |t[1..]| && t[1..][i] == Slot(k) && SlotsBelow(t[1..][..i], n)
    ensures exists i :: 0 <= i < |t| && t[i] == Slot(k) && SlotsBelow(t[..i], n)
  {
    var i :| 0 <= i < |t[1..]| && t[1..][i] == Slot(k) && SlotsBelow(t[1..][..i], n);
    assert t[i + 1] == Slot(k);
    var prefix := t[..i + 1];
    forall j | 0 <= j < i + 1 ensures prefix[j].Slot? ==> prefix[j].index < n {
      if j > 0 {
        assert prefix[j] == t[1..][..i][j - 1];
      }
    }
  }

  /** Formatting distributes over the concatenation of two templates. */
  lemma {:induction false} FormatAppend(t: Template, u: Template, args: seq<string>)
    requires SlotsBelow(t, |args|) && SlotsBelow(u, |args|)
    ensures Format(t + u, args) == Ok(Format(t, args).value + Format(u, args).value)
  {
    if t == [] {
      assert t + u == u;
      assert "" + Format(u, args).value == Format(u, args).value;
    } else {
      assert (t + u)[0] == t[0];
      assert (t + u)[1..] == t[1..] + u;
      assert SlotsBelow(t[1..], |args|) by {
        forall i | 0 <= i < |t[1..]| ensures (t[1..][i].Slot? ==> t[1..][i].index < |args|) {
          assert t[1..][i] == t[i + 1];
        }
      }
      FormatAppend(t[1..], u, args);
      var head := match t[0] case Lit(s) => s case Slot(k) => args[k];
      assert Format(t, args).value == head + Format(t[1..], args).value;
      assert Format(t + u, args).value == head + Format(t[1..] + u, args).value;
      assert head + (Format(t[1..], args).value + Format(u, args).value)
          == (head + Format(t[1..], args).value) + Format(u, args).value;
    }
  }

  /**
   * The result depends only on the arguments that the template's fields name:
   * two argument lists that agree on every referenced index format alike.
   */
  lemma {:induction false} FormatOnlyReadsSlots(t: Template, args: seq<string>, args': seq<string>)
    requires SlotsBelow(t, |args|) && SlotsBelow(t, |args'|)
    requires forall i :: 0 <= i < |t| && t[i].Slot? ==> args[t[i].index] == args'[t[i].index]
    ensures Format(t, args) == Format(t, args')
  {
    if t != [] {
      FormatOnlyReadsSlots(t[1..], args, args');
    }
  }

  /** The number of characters produced: every literal plus every substituted argument. */
  function OutputLength(t: Template, args: seq<string>): nat
    requires SlotsBelow(t, |args|)
  {
    if t == [] then 0
    else (match t[0] case Lit(s) => |s| case Slot(k) => |args[k]|) + OutputLength(t[1..], args)
  }

  lemma {:induction false} FormatLength(t: Template, args: seq<string>)
    requires SlotsBelow(t, |args|)
    ensures |Format(t, args).value| == OutputLength(t, args)
  {
    if t != [] {
      FormatLength(t[1..], args);
    }
  }
}
