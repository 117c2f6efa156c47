// ClassPathResource: the location of a resource on the class path.
module Resources {
  import opened Wrappers

  /** The prefix that marks a class-path location. */
  const CLASSPATH_URL_PREFIX := "classpath:"

  /**
   * `getResolvedPath`: a null path is a NullPointerException; otherwise one leading
   * `classpath:` is dropped, then one leading `/`, since class-path resources are looked up
   * relative to the class-path root.
   */
  function ResolvedPath(path: Option<string>): (r: Result<string>)
    ensures r.Err? <==> path.None?
    ensures r.Err? ==> r.error == NullPointerException
    ensures r.Ok? ==> exists p :: p in {"", CLASSPATH_URL_PREFIX, "/", CLASSPATH_URL_PREFIX + "/"} && path.value == p + r.value
    ensures r.Ok? && CLASSPATH_URL_PREFIX <= path.value ==>
      if "/" <= path.value[|CLASSPATH_URL_PREFIX|..] then path.value == CLASSPATH_URL_PREFIX + "/" + r.value
      else path.value == CLASSPATH_URL_PREFIX + r.value
    ensures r.Ok? && !(CLASSPATH_URL_PREFIX <= path.value) ==>
      if "/" <= path.value then path.value == "/" + r.value else r.value == path.value
  {
    match path
    case None => Err(NullPointerException)
    case Some(p) =>
      var p1 := if CLASSPATH_URL_PREFIX <= p then p[|CLASSPATH_URL_PREFIX|..] else p;
      var p2 := if "/" <= p1 then p1[1..] else p1;
      var dropped :=
        if CLASSPATH_URL_PREFIX <= p then (if "/" <= p1 then CLASSPATH_URL_PREFIX + "/" else CLASSPATH_URL_PREFIX)
        else (if "/" <= p1 then "/" else "");
      assert p == dropped + p2;
      Ok(p2)
  }

  /** The four spellings of one class-path resource resolve to the same path. */
  lemma SpellingsResolveAlike(name: string)
    requires !(CLASSPATH_URL_PREFIX <= name) && !("/" <= name)
    ensures ResolvedPath(Some(name)) == Ok(name)
    ensures ResolvedPath(Some(CLASSPATH_URL_PREFIX + name)) == Ok(name)
    ensures ResolvedPath(Some("/" + name)) == Ok(name)
    ensures ResolvedPath(Some(CLASSPATH_URL_PREFIX + "/" + name)) == Ok(name)
  {
    assert (CLASSPATH_URL_PREFIX + name)[|CLASSPATH_URL_PREFIX|..] == name;
    assert ("/" + name)[1..] == name;
    assert (CLASSPATH_URL_PREFIX + "/" + name)[|CLASSPATH_URL_PREFIX|..] == "/" + name;
    assert !("/" <= CLASSPATH_URL_PREFIX + name) by {
      assert (CLASSPATH_URL_PREFIX + name)[0] == 'c';
    }
    assert !(CLASSPATH_URL_PREFIX <= "/" + name) by {
      assert ("/" + name)[0] == '/';
    }
  }
}
