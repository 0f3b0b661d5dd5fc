/** Startup discovery (`import_example`): the first class offering the three handler methods becomes
    the handler class. The directory walk and module loading are abstracted into the sequence of
    classes they yield, in the order they are met. */
module Discovery {
  import opened Wrappers
  import opened Handler

  /** The directory searched for example modules. */
  const ExampleDir: string := "RetrievalAugmentedGeneration/example"

  /** The methods a handler class must have. */
  const RequiredMethods: set<string> := {"ingest_docs", "llm_chain", "rag_chain"}

  /** The abstract base class, which has all three methods and is skipped. */
  const BaseClassName: string := "BaseExample"

  /** One class found in an example module: its name, the names `dir(cls)` lists, and whether
      `cls()` returns without raising. */
  datatype ClassInfo = ClassInfo(name: string, attributes: set<string>, instantiable: bool)

  /** A class that is taken as the handler class when it is the first one met. */
  predicate Qualifies(c: ClassInfo)
    ensures Qualifies(c) ==>
      "ingest_docs" in c.attributes && "llm_chain" in c.attributes && "rag_chain" in c.attributes &&
      c.name != "BaseExample"
  {
    RequiredMethods <= c.attributes && c.name != BaseClassName
  }

  /** The error raised when a qualifying class cannot be instantiated. */
  function InstantiationError(name: string): (e: Exception)
    ensures e.kind == ValueError
    ensures |e.message| > 6 + |name| && e.message[..6] == "Class " && e.message[6..6 + |name|] == name
  {
    Exception(ValueError, "Class " + name + " is not implemented and could not be instantiated.")
  }

  /** The error raised when no class qualifies. */
  const NotFoundError: Exception :=
    Exception(NotImplementedError, "Could not find a valid example class in " + ExampleDir)

  /** The position of the first qualifying class, if any. */
  function FirstQualifying(classes: seq<ClassInfo>): (r: Option<nat>)
    ensures r.None? <==> forall i :: 0 <= i < |classes| ==> !Qualifies(classes[i])
    ensures r.Some? ==>
      r.value < |classes| && Qualifies(classes[r.value]) &&
      forall j :: 0 <= j < r.value ==> !Qualifies(classes[j])
  {
    if classes == [] then None
    else if Qualifies(classes[0]) then Some(0)
    else
      match FirstQualifying(classes[1..])
      case None => None
      case Some(i) => Some(i + 1)
  }

  /** `import_example`: scan the classes in order, skip those lacking a method and the base class,
      and stop at the first other one: it is the handler class if it can be instantiated, and a
      `ValueError` naming it otherwise. No qualifying class at all is a `NotImplementedError`. */
  method ImportExample(classes: seq<ClassInfo>) returns (r: Result<ClassInfo, Exception>)
    ensures r == match FirstQualifying(classes)
      case None => Failure(NotFoundError)
      case Some(i) =>
        if classes[i].instantiable then Success(classes[i]) else Failure(InstantiationError(classes[i].name))
    ensures r.Success? ==> r.value in classes && Qualifies(r.value)
  {
    for i := 0 to |classes|
      invariant forall j :: 0 <= j < i ==> !Qualifies(classes[j])
    {
      var cls := classes[i];
      if RequiredMethods <= cls.attributes {
        if cls.name == BaseClassName {
          continue;
        }
        if !cls.instantiable {
          return Failure(InstantiationError(cls.name));
        }
        return Success(cls);
      }
    }
    return Failure(NotFoundError);
  }

  /** The base class alone never qualifies: a directory whose only complete class is `BaseExample`
      fails startup. */
  lemma {:induction false} OnlyBaseClassFails(attributes: set<string>)
    requires RequiredMethods <= attributes
    ensures FirstQualifying([ClassInfo(BaseClassName, attributes, true)]) == None
  {
    assert !Qualifies(ClassInfo(BaseClassName, attributes, true));
  }
}
