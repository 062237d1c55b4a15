/** PluginMetadata: the mutable record piston-core.yml is read into. A null field is None. */
module PluginMetadataModel {
  import opened Wrappers

  /** The seven fields as a value, for stating what a sequence of setter calls leaves. */
  datatype Metadata = Metadata(
    name: Option<string>,
    version: Option<string>,
    description: Option<string>,
    mainClass: Option<string>,
    authors: Option<seq<string>>,
    dependencies: Option<seq<string>>,
    apiVersion: Option<string>)

  /** The state the no-argument constructor leaves: every field null. */
  const NoMetadata := Metadata(None, None, None, None, None, None, None)

  /** The apiVersion the four-argument constructor assumes. */
  const DefaultApiVersion := "0.3.0"

  class PluginMetadata {
    var name: Option<string>
    var version: Option<string>
    var description: Option<string>
    var mainClass: Option<string>
    var authors: Option<seq<string>>
    var dependencies: Option<seq<string>>
    var apiVersion: Option<string>

    function Value(): Metadata
      reads this
    {
      Metadata(name, version, description, mainClass, authors, dependencies, apiVersion)
    }

    /** PluginMetadata(): every field null. */
    constructor ()
      ensures Value() == NoMetadata
    {
      name, version, description, mainClass := None, None, None, None;
      authors, dependencies, apiVersion := None, None, None;
    }

    /** The seven-argument constructor: every argument stored as given. */
    constructor Full(name: Option<string>, version: Option<string>, description: Option<string>,
                     mainClass: Option<string>, authors: Option<seq<string>>,
                     dependencies: Option<seq<string>>, apiVersion: Option<string>)
      ensures Value() == Metadata(name, version, description, mainClass, authors, dependencies, apiVersion)
    {
      this.name, this.version, this.description, this.mainClass := name, version, description, mainClass;
      this.authors, this.dependencies, this.apiVersion := authors, dependencies, apiVersion;
    }

    /** The four-argument constructor: empty author and dependency lists, apiVersion "0.3.0". */
    constructor Basic(name: Option<string>, version: Option<string>, description: Option<string>,
                      mainClass: Option<string>)
      ensures Value() == Metadata(name, version, description, mainClass, Some([]), Some([]), Some(DefaultApiVersion))
    {
      this.name, this.version, this.description, this.mainClass := name, version, description, mainClass;
      authors, dependencies, apiVersion := Some([]), Some([]), Some(DefaultApiVersion);
    }

    // Each setter changes its own field and leaves the other six as they were.

    method SetName(v: Option<string>)
      modifies this
      ensures Value() == old(Value()).(name := v)
    {
      name := v;
    }

    method SetVersion(v: Option<string>)
      modifies this
      ensures Value() == old(Value()).(version := v)
    {
      version := v;
    }

    method SetDescription(v: Option<string>)
      modifies this
      ensures Value() == old(Value()).(description := v)
    {
      description := v;
    }

    method SetMainClass(v: Option<string>)
      modifies this
      ensures Value() == old(Value()).(mainClass := v)
    {
      mainClass := v;
    }

    method SetAuthors(v: Option<seq<string>>)
      modifies this
      ensures Value() == old(Value()).(authors := v)
    {
      authors := v;
    }

    method SetDependencies(v: Option<seq<string>>)
      modifies this
      ensures Value() == old(Value()).(dependencies := v)
    {
      dependencies := v;
    }

    method SetApiVersion(v: Option<string>)
      modifies this
      ensures Value() == old(Value()).(apiVersion := v)
    {
      apiVersion := v;
    }
  }
}
