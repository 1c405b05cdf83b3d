/**
 * The registry of schemas already generated during schema generation, keyed
 * by the Java type they were generated for, so that definitions are shared.
 * Entries keep registration order.
 */
module SchemaRegistry {
  import opened OrderedMap
  import opened Wire
  import NativeSchema

  /** A Java type, identified by its description (what its `toString` prints). */
  datatype JavaType = JavaType(description: string)

  /** The IllegalStateException message of a second registration for a type. */
  function RedefinitionMessage(t: JavaType): string
  {
    "Trying to re-define schema for type " + t.description
  }

  class DefinedProtobufSchemas {
    var schemas: OrderedMap<JavaType, NativeSchema.NativeProtobufSchema>

    /** Each type is registered at most once in the map. */
    ghost predicate Valid()
      reads this
    {
      DistinctKeys(schemas)
    }

    constructor ()
      ensures schemas == [] && Valid()
    {
      schemas := [];
    }

    /** `findSchema(type)`: the schema registered for the type, or none. */
    function FindSchema(t: JavaType): (r: Option<NativeSchema.NativeProtobufSchema>)
      reads this
      ensures r.Some? <==> HasKey(schemas, t)
      ensures r.Some? ==> (t, r.value) in schemas
    {
      Get(schemas, t)
    }

    /**
     * `addSchema(type, schema)`: puts the schema first and refuses afterwards,
     * so a refused redefinition has already replaced the old schema. A new
     * type goes after all registered ones; every other entry is unchanged.
     */
    method AddSchema(t: JavaType, schema: NativeSchema.NativeProtobufSchema) returns (r: Result<(), string>)
      requires Valid()
      modifies this
      ensures Valid()
      ensures schemas == Put(old(schemas), t, schema)
      ensures r.Err? <==> old(HasKey(schemas, t))
      ensures r.Err? ==> r.error == RedefinitionMessage(t)
      ensures FindSchema(t) == Some(schema)
      ensures forall t' :: t' != t ==> FindSchema(t') == old(FindSchema(t'))
      ensures old(HasKey(schemas, t)) ==> Keys(schemas) == old(Keys(schemas))
      ensures !old(HasKey(schemas, t)) ==> Keys(schemas) == old(Keys(schemas)) + [t]
    {
      var hadOld := Get(schemas, t);
      PutDistinct(schemas, t, schema);
      PutGetSame(schemas, t, schema);
      forall t' | t' != t
        ensures Get(Put(schemas, t, schema), t') == Get(schemas, t')
      {
        PutGetOther(schemas, t, schema, t');
      }
      schemas := Put(schemas, t, schema);
      if hadOld.Some? {
        return Err(RedefinitionMessage(t));
      }
      r := Ok(());
    }
  }

  /**
   * Whatever was registered before, a redefinition leaves the map holding the
   * new schema for the type, in the type's original position.
   */
  lemma {:induction false} RedefinitionOverwrites(m: OrderedMap<JavaType, NativeSchema.NativeProtobufSchema>, t: JavaType, s: NativeSchema.NativeProtobufSchema, i: nat)
    requires DistinctKeys(m) && i < |m| && m[i].0 == t
    ensures Put(m, t, s)[i] == (t, s)
    decreases |m|
  {
    if m[0].0 != t {
      assert DistinctKeys(m[1..]);
      RedefinitionOverwrites(m[1..], t, s, i - 1);
      assert Put(m, t, s)[1..] == Put(m[1..], t, s);
    }
  }
}
