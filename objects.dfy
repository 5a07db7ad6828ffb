/** The storable objects of the scene.

    Every object derives from `Object`, which fixes its type id at construction
    and never changes it afterwards. The two concrete classes, `EffectRed` and
    `EffectBlue`, hold the same three fields, `pos`, `acceleration` and `life`.
    They update them the same way and serialize them in the same order. The
    only difference between them is the colour they draw with, and drawing is
    not part of this model. So one class `Effect` stands for both, and its
    `kind` says which concrete class an instance is. */
module Objects {

  /** A 2D vector. Coordinates are reals, so `pos + acceleration` is exact here. */
  datatype Vec2 = Vec2(x: real, y: real)

  function Add(a: Vec2, b: Vec2): Vec2
  {
    Vec2(a.x + b.x, a.y + b.y)
  }

  /** The concrete classes deriving from `Object`. */
  datatype Kind = Red | Blue

  /** The `life` a freshly constructed effect starts with. */
  const InitialLife: int := 300

  /** The value of one object: its type id, its concrete class and its three fields. */
  datatype Record = Record(id: nat, kind: Kind, pos: Vec2, acceleration: Vec2, life: int)

  /** One unit of the snapshot stream. A `Word` is a `size_t` (the count and
      each type id), a `Vector` a serialized `Vec2`, and an `Int` a serialized `int`. */
  datatype Token = Word(n: nat) | Vector(v: Vec2) | Int(i: int)

  /** What `update` does to an object's value: the position moves by the
      acceleration and `life` goes down by one. */
  function Step(r: Record): Record
  {
    r.(pos := Add(r.pos, r.acceleration), life := r.life - 1)
  }

  /** The value `update` returns: the object stays while its life is positive. */
  predicate Alive(r: Record)
  {
    r.life > 0
  }

  /** The serialized payload of an object: `pos`, `acceleration`, `life`, in that order. */
  function Payload(r: Record): seq<Token>
  {
    [Vector(r.pos), Vector(r.acceleration), Int(r.life)]
  }

  /** One live object. `objectId` and `kind` are fixed at construction. */
  class Effect {
    const objectId: nat
    const kind: Kind
    var pos: Vec2
    var acceleration: Vec2
    var life: int

    /** The constructor. `center` and `velocity` stand for the engine calls
        that give the screen centre and a random unit vector. */
    constructor (objectId: nat, kind: Kind, center: Vec2, velocity: Vec2)
      ensures this.objectId == objectId && this.kind == kind
      ensures pos == center && acceleration == velocity && life == InitialLife
    {
      this.objectId := objectId;
      this.kind := kind;
      pos := center;
      acceleration := velocity;
      life := InitialLife;
    }

    function State(): Record
      reads this
    {
      Record(objectId, kind, pos, acceleration, life)
    }

    /** One time step. Returns whether the object is still alive. */
    method Update() returns (alive: bool)
      modifies this
      ensures pos == Add(old(pos), old(acceleration)) && acceleration == old(acceleration)
      ensures life == old(life) - 1
      ensures alive <==> life > 0
      ensures State() == Step(old(State())) && alive == Alive(State())
    {
      pos := Add(pos, acceleration);
      life := life - 1;
      alive := life > 0;
    }

    /** The reading serializer: it overwrites all three fields, in the order they are written. */
    method ReadState(pos: Vec2, acceleration: Vec2, life: int)
      modifies this
      ensures State() == Record(objectId, kind, pos, acceleration, life)
    {
      this.pos := pos;
      this.acceleration := acceleration;
      this.life := life;
    }
  }
}
