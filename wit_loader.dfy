/**
 * The interface lookup of `pypes/pypes/src/wit_loader.rs`: the exported
 * function names of an interface of the loaded WIT package, found by its
 * exact name or, failing that, by the text after the first `/` of a
 * package-qualified name. Reading and parsing the WIT file is left out; the
 * package is given as its interfaces.
 */
module WitLoader {
  import opened Wrappers
  import opened Strings

  /** An interface of the package: its function names in declaration order. */
  datatype Interface = Interface(functions: seq<string>)

  /** A lookup failure names the interface asked for and the interfaces there are. */
  datatype WitError = InterfaceNotFound(name: string, available: set<string>)

  /** The interface, at the exact name first and then at the short name after the first `/`. */
  function FindInterface(interfaces: map<string, Interface>, name: string): (r: Option<string>)
    ensures r.Some? ==> r.value in interfaces
    ensures name in interfaces ==> r == Some(name)
    ensures name !in interfaces && '/' !in name ==> r.None?
    ensures name !in interfaces && '/' in name ==> (r.Some? <==> After(name, '/') in interfaces)
    ensures r.Some? && r.value != name ==> '/' in name && r.value == After(name, '/')
  {
    if name in interfaces then Some(name)
    else if '/' in name && After(name, '/') in interfaces then Some(After(name, '/'))
    else None
  }

  /** `get_interface_exports`: the function names of the interface found, or an error. */
  function GetInterfaceExports(interfaces: map<string, Interface>, name: string): (r: Result<seq<string>, WitError>)
    ensures r.Ok? <==> FindInterface(interfaces, name).Some?
    ensures r.Ok? ==> r.value == interfaces[FindInterface(interfaces, name).value].functions
    ensures r.Err? ==> r.error == InterfaceNotFound(name, interfaces.Keys)
  {
    var found := FindInterface(interfaces, name);
    if found.None? then Err(InterfaceNotFound(name, interfaces.Keys))
    else Ok(interfaces[found.value].functions)
  }

  /** A package-qualified name finds the interface under its short name. */
  lemma QualifiedNameFallback(interfaces: map<string, Interface>, pkg: string, short: string)
    requires '/' !in pkg && short in interfaces && pkg + "/" + short !in interfaces
    ensures GetInterfaceExports(interfaces, pkg + "/" + short) == Ok(interfaces[short].functions)
  {
    assert pkg + "/" + short == pkg + ['/'] + short;
    BeforeJoin(pkg, '/', short);
  }

  /** The exact name wins over the short name when both are present. */
  lemma ExactNameFirst(interfaces: map<string, Interface>, pkg: string, short: string)
    requires pkg + "/" + short in interfaces
    ensures GetInterfaceExports(interfaces, pkg + "/" + short) == Ok(interfaces[pkg + "/" + short].functions)
  {
  }

  /** Only the text after the first `/` is tried: a second `/` stays in the short name. */
  lemma FallbackAfterFirstSlash(interfaces: map<string, Interface>, pkg: string, rest: string)
    requires '/' !in pkg && pkg + "/" + rest !in interfaces
    ensures FindInterface(interfaces, pkg + "/" + rest) == if rest in interfaces then Some(rest) else None
  {
    assert pkg + "/" + rest == pkg + ['/'] + rest;
    BeforeJoin(pkg, '/', rest);
  }
}
