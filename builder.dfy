/**
  * The fluent module builder of src/core/module.ts: a module object whose
  * builder methods push one link onto its chain and return the module itself.
  */
module Builder {
  import opened Base
  import opened Records

  class ModuleBuilder {
    var chain: seq<Link>
    var prefix: string

    /** The module as a value, as the compiler reads it. */
    function Value(): (m: Module)
      reads this
      ensures m.chain == chain && m.prefix == prefix
    {
      Module(chain, prefix)
    }

    /** `new Module({ prefix })`: an empty chain and the prefix, or `""`. */
    constructor (prefix: Option<string>)
      ensures chain == []
      ensures prefix.Some? ==> this.prefix == prefix.value
      ensures prefix.None? ==> this.prefix == ""
    {
      chain := [];
      this.prefix := prefix.GetOr("");
    }

    /** Appends one link and returns the module itself. */
    method Push(link: Link) returns (self: ModuleBuilder)
      modifies this
      ensures self == this
      ensures chain == old(chain) + [link] && prefix == old(prefix)
    {
      chain := chain + [link];
      self := this;
    }

    /**
      * `extends(module, options)`: the other module becomes one link of this
      * chain unless `options.execute` is `false`.
      */
    method Extends(other: ModuleBuilder, execute: Option<bool>) returns (self: ModuleBuilder)
      modifies this
      ensures self == this && prefix == old(prefix)
      ensures execute == Some(false) ==> chain == old(chain)
      ensures execute != Some(false) ==> chain == old(chain) + [ModuleLink(old(other.Value()))]
    {
      self := this;
      if execute != Some(false) {
        self := Push(ModuleLink(other.Value()));
      }
    }

    /** `group(fn, { prefix })`: the builder's links become one group link. */
    method Group(builder: seq<Link>, groupPrefix: Option<string>) returns (self: ModuleBuilder)
      modifies this
      ensures self == this && prefix == old(prefix)
      ensures chain == old(chain) + [NewGroup(builder, groupPrefix)]
    {
      self := Push(NewGroup(builder, groupPrefix));
    }

    method Middleware(fn: Fn) returns (self: ModuleBuilder)
      modifies this
      ensures self == this && prefix == old(prefix)
      ensures chain == old(chain) + [Records.Middleware(fn)]
    {
      self := Push(Records.Middleware(fn));
    }

    method Route(verb: string, path: string, handler: Fn, validator: Option<Dict<Value>>) returns (self: ModuleBuilder)
      modifies this
      ensures self == this && prefix == old(prefix)
      ensures chain == old(chain) + [RouteLink(CoreRoute(verb, path, handler, validator))]
    {
      self := Push(RouteLink(CoreRoute(verb, path, handler, validator)));
    }

    method Store(fn: Fn) returns (self: ModuleBuilder)
      modifies this
      ensures self == this && prefix == old(prefix)
      ensures chain == old(chain) + [Records.Store(fn)]
    {
      self := Push(Records.Store(fn));
    }

    method Validator(request: Dict<Value>) returns (self: ModuleBuilder)
      modifies this
      ensures self == this && prefix == old(prefix)
      ensures chain == old(chain) + [ValidatorLink(NewValidator(request))]
    {
      self := Push(ValidatorLink(NewValidator(request)));
    }
  }

  /** `module(options)`: a fresh module, as `new Module(options)` builds it. */
  method NewModule(prefix: Option<string>) returns (m: ModuleBuilder)
    ensures fresh(m)
    ensures m.Value() == Module([], prefix.GetOr(""))
  {
    m := new ModuleBuilder(prefix);
  }
}
