/** Choosing a reader for an input file, as siso/reader/reader.py does: the
    registry of reader classes is searched in order for the first class that
    is not abstract and whose `applicable` accepts the file name.

    The registry (`subclasses(Reader, invert=True)`) is a parameter here; a
    class is its name, whether it is abstract, and its `applicable` test. */
module ReaderSelection {
  import opened Wrappers

  datatype ReaderClass = ReaderClass(readerName: string, isAbstract: bool, applicable: string -> bool)

  /** `Reader.applicable` of the base class: no file is claimed. */
  function BaseApplicable(filename: string): (b: bool)
    ensures !b
  {
    false
  }

  /** The base class as a registry entry: abstract (its `__enter__` and
      `__exit__` are abstract) and claiming nothing. */
  function BaseReader(): (c: ReaderClass)
    ensures c.isAbstract && forall f :: !c.applicable(f)
  {
    ReaderClass("", true, BaseApplicable)
  }

  /** A class that may be returned for `filename`. */
  predicate Qualifies(c: ReaderClass, filename: string)
  {
    !c.isAbstract && c.applicable(filename)
  }

  /** The search of `find_applicable` from position k of the registry on. */
  function FindFrom(registry: seq<ReaderClass>, filename: string, k: nat): Option<nat>
    decreases |registry| - k
  {
    if k >= |registry| then None
    else if registry[k].isAbstract then FindFrom(registry, filename, k + 1)
    else if registry[k].applicable(filename) then Some(k)
    else FindFrom(registry, filename, k + 1)
  }

  /** `find_applicable`: the position of the class returned, or TypeError
      when no class qualifies. */
  function FindApplicable(registry: seq<ReaderClass>, filename: string): Result<nat, string>
  {
    match FindFrom(registry, filename, 0)
    case Some(k) => Ok(k)
    case None => Err("Unable to find any applicable readers for " + filename)
  }

  lemma {:induction false} FindFromSpec(registry: seq<ReaderClass>, filename: string, k: nat)
    ensures var r := FindFrom(registry, filename, k);
            && (r.None? <==> forall j :: k <= j < |registry| ==> !Qualifies(registry[j], filename))
            && (r.Some? ==> k <= r.value < |registry| && Qualifies(registry[r.value], filename)
                            && forall j :: k <= j < r.value ==> !Qualifies(registry[j], filename))
    decreases |registry| - k
  {
    if k < |registry| && !Qualifies(registry[k], filename) {
      FindFromSpec(registry, filename, k + 1);
    }
  }

  /** The class returned is the first in registry order that is not
      abstract and accepts the file; an abstract class is never returned;
      and the search fails exactly when no class qualifies. */
  lemma FindApplicableSpec(registry: seq<ReaderClass>, filename: string)
    ensures var r := FindApplicable(registry, filename);
            && (r.Err? <==> forall j :: 0 <= j < |registry| ==> !Qualifies(registry[j], filename))
            && (r.Ok? ==> r.value < |registry| && !registry[r.value].isAbstract
                          && registry[r.value].applicable(filename)
                          && forall j :: 0 <= j < r.value ==> !Qualifies(registry[j], filename))
  {
    FindFromSpec(registry, filename, 0);
  }

  /** Putting the base class anywhere in the registry changes nothing: it
      is abstract, and claims no file anyway. */
  lemma BaseNeverChosen(before: seq<ReaderClass>, after: seq<ReaderClass>, filename: string)
    ensures var r := FindApplicable(before + [BaseReader()] + after, filename);
            r.Ok? ==> r.value != |before|
  {
    FindApplicableSpec(before + [BaseReader()] + after, filename);
  }

  /** `Reader.validate` of the base class: accepts every configuration. */
  function Validate<C>(config: C): (r: Outcome<string>)
    ensures r.Pass?
  {
    Pass
  }
}
