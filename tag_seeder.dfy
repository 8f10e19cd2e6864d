/** The tag seeder: for each listed tag, find the first tag with that name or
    create it. The tags table is a sequence of rows with an auto-increment id;
    Str::slug is a parameter (`slugOf`). */
module TagSeeder {
  import opened Common
  import opened TagModel

  /** One entry of the seeder's list. */
  datatype SeedEntry = SeedEntry(name: string, color: string, description: string)

  /** The tags the seeder makes sure exist, in its order. */
  const SeedTags: seq<SeedEntry> := [
    SeedEntry("Handmade", "#10B981", "Handcrafted with care"),
    SeedEntry("Custom", "#F59E0B", "Customizable products"),
    SeedEntry("Gift", "#EF4444", "Perfect for gifting"),
    SeedEntry("Popular", "#8B5CF6", "Trending items"),
    SeedEntry("Limited Edition", "#EC4899", "Limited availability"),
    SeedEntry("Eco-Friendly", "#22C55E", "Environmentally conscious"),
    SeedEntry("Personalized", "#3B82F6", "Can be personalized"),
    SeedEntry("Vintage Style", "#A855F7", "Classic vintage look"),
    SeedEntry("Modern", "#06B6D4", "Contemporary design"),
    SeedEntry("Artisan Made", "#F97316", "Crafted by skilled artisans"),
    SeedEntry("Wedding", "#FF6B9D", "Perfect for wedding ceremonies and celebrations"),
    SeedEntry("Birthday", "#FFD93D", "Great for birthday gifts and parties"),
    SeedEntry("Festivals", "#6BCF7F", "Ideal for festival decorations and gifts"),
    SeedEntry("Romantic", "#E91E63", "Perfect for romantic occasions and gifts"),
    SeedEntry("Wall", "#8E44AD", "Wall-mounted display items"),
    SeedEntry("Desk", "#3498DB", "Desktop and tabletop items"),
    SeedEntry("Geode", "#95A5A6", "Geode-inspired designs"),
    SeedEntry("Theme", "#FF6B35", "Themed decorative items"),
    SeedEntry("Name", "#2ECC71", "Personalized with names"),
    SeedEntry("Messages", "#F39C12", "Custom messages and text"),
    SeedEntry("Photo", "#E74C3C", "Photo embedding and preservation"),
    SeedEntry("Made-to-Order", "#9B59B6", "Custom made-to-order items"),
    SeedEntry("Glitter", "#F1C40F", "Glitter and sparkle effects"),
    SeedEntry("Pressed-Flower", "#1ABC9C", "Real pressed flowers preserved in resin"),
    SeedEntry("Shapes", "#E67E22", "Various shapes and forms"),
    SeedEntry("Themes", "#34495E", "Themed designs and concepts"),
    SeedEntry("Earrings", "#FF4081", "Earring jewelry pieces"),
    SeedEntry("Pendants", "#7C4DFF", "Pendant necklaces"),
    SeedEntry("Bracelets", "#00BCD4", "Bracelet jewelry"),
    SeedEntry("Bangles", "#4CAF50", "Bangle bracelets"),
    SeedEntry("Rings", "#FFC107", "Ring jewelry"),
    SeedEntry("Brooches", "#9C27B0", "Decorative brooches and pins"),
    SeedEntry("Hair-Accessories", "#FF9800", "Hair clips, bands, and accessories"),
    SeedEntry("Sets", "#607D8B", "Jewelry sets and collections"),
    SeedEntry("Decor", "#8BC34A", "Decorative items for home and office"),
    SeedEntry("Serving", "#CDDC39", "Serving trays and functional items"),
    SeedEntry("Ocean", "#03A9F4", "Ocean and sea-themed designs")
  ]

  /** The tags table: its rows and the id the next insert gets. */
  datatype Store = Store(rows: seq<TagRow>, nextId: nat)

  /** Some row has the name. */
  predicate HasName(rows: seq<TagRow>, name: string)
  {
    exists i :: 0 <= i < |rows| && rows[i].name == name
  }

  /** The row firstOrCreate inserts: the listed color and description, the
      slug of the name (which the creating hook keeps or derives again),
      usage 0, active. */
  function NewTag(id: nat, e: SeedEntry, slugOf: string -> string): TagRow
  {
    TagRow(id, e.name, CreatingSlug(e.name, Some(slugOf(e.name)), slugOf), e.color, e.description, 0, true)
  }

  /** The table after `Tag::firstOrCreate(['name' => …], [...])`. */
  function AfterFirstOrCreate(st: Store, e: SeedEntry, slugOf: string -> string): Store
  {
    if HasName(st.rows, e.name) then st
    else Store(st.rows + [NewTag(st.nextId, e, slugOf)], st.nextId + 1)
  }

  /** The table after the loop has handled the entries. */
  function RunAll(st: Store, entries: seq<SeedEntry>, slugOf: string -> string): Store
    decreases |entries|
  {
    if entries == [] then st
    else AfterFirstOrCreate(RunAll(st, entries[..|entries| - 1], slugOf), entries[|entries| - 1], slugOf)
  }

  /** The message logged for an entry. */
  function Message(created: bool, name: string): string
  {
    if created then "Created tag: " + name else "Tag already exists: " + name
  }

  /** The created tag's slug is Str::slug of its name, whatever the hook does. */
  lemma NewTagSlug(id: nat, e: SeedEntry, slugOf: string -> string)
    ensures NewTag(id, e, slugOf).slug == Some(slugOf(e.name))
  {
  }

  /** The loop only appends: the rows already there stay as they were, in
      place (so tags with other names are never touched); every added row is
      a fresh tag for a listed name; and every listed name is then present. */
  lemma {:induction false} RunAllSpec(st: Store, entries: seq<SeedEntry>, slugOf: string -> string)
    ensures var r := RunAll(st, entries, slugOf).rows;
            && |st.rows| <= |r| && r[..|st.rows|] == st.rows
            && (forall i :: |st.rows| <= i < |r| ==>
                  r[i].usageCount == 0 && r[i].isActive && r[i].slug == Some(slugOf(r[i].name))
                  && !HasName(st.rows, r[i].name)
                  && exists j :: 0 <= j < |entries| && entries[j].name == r[i].name
                                 && r[i].color == entries[j].color && r[i].description == entries[j].description)
            && (forall j :: 0 <= j < |entries| ==> HasName(r, entries[j].name))
    ensures forall name :: HasName(st.rows, name) ==> HasName(RunAll(st, entries, slugOf).rows, name)
    decreases |entries|
  {
    if entries != [] {
      var init := entries[..|entries| - 1];
      var e := entries[|entries| - 1];
      var mid := RunAll(st, init, slugOf);
      RunAllSpec(st, init, slugOf);
      var r := RunAll(st, entries, slugOf).rows;
      assert r == AfterFirstOrCreate(mid, e, slugOf).rows;
      assert r[..|mid.rows|] == mid.rows;
      forall j | 0 <= j < |entries| ensures HasName(r, entries[j].name) {
        if j < |init| {
          assert init[j] == entries[j];
          var k :| 0 <= k < |mid.rows| && mid.rows[k].name == entries[j].name;
          assert r[k] == mid.rows[k];
        } else if !HasName(mid.rows, e.name) {
          assert r[|mid.rows|].name == e.name;
        } else {
          var k :| 0 <= k < |mid.rows| && mid.rows[k].name == e.name;
        }
      }
      forall i | |st.rows| <= i < |r|
        ensures r[i].usageCount == 0 && r[i].isActive && r[i].slug == Some(slugOf(r[i].name))
                && !HasName(st.rows, r[i].name)
                && exists j :: 0 <= j < |entries| && entries[j].name == r[i].name
                               && r[i].color == entries[j].color && r[i].description == entries[j].description
      {
        if i < |mid.rows| {
          assert r[i] == mid.rows[i];
          var j :| 0 <= j < |init| && init[j].name == r[i].name
                   && r[i].color == init[j].color && r[i].description == init[j].description;
          assert entries[j] == init[j];
        } else {
          assert r[i] == NewTag(mid.nextId, e, slugOf);
        }
      }
      forall name | HasName(st.rows, name) ensures HasName(r, name) {
        var k :| 0 <= k < |st.rows| && st.rows[k].name == name;
        assert r[k] == st.rows[k];
      }
    }
  }

  /** When every listed name is present the loop changes nothing. */
  lemma {:induction false} RunAllIdle(st: Store, entries: seq<SeedEntry>, slugOf: string -> string)
    requires forall j :: 0 <= j < |entries| ==> HasName(st.rows, entries[j].name)
    ensures RunAll(st, entries, slugOf) == st
    decreases |entries|
  {
    if entries != [] {
      RunAllIdle(st, entries[..|entries| - 1], slugOf);
    }
  }

  /** Seeding twice leaves the same table as seeding once. */
  lemma RunAllIdempotent(st: Store, entries: seq<SeedEntry>, slugOf: string -> string)
    ensures RunAll(RunAll(st, entries, slugOf), entries, slugOf) == RunAll(st, entries, slugOf)
  {
    RunAllSpec(st, entries, slugOf);
    RunAllIdle(RunAll(st, entries, slugOf), entries, slugOf);
  }

  /** The tags table. */
  class TagTable {
    var rows: seq<TagRow>
    var nextId: nat

    constructor (rows: seq<TagRow>, nextId: nat)
      ensures this.rows == rows && this.nextId == nextId
    {
      this.rows := rows;
      this.nextId := nextId;
    }

    function Contents(): Store
      reads this
    {
      Store(rows, nextId)
    }

    /** firstOrCreate, reporting wasRecentlyCreated. */
    method FirstOrCreate(e: SeedEntry, slugOf: string -> string) returns (created: bool)
      modifies this
      ensures created == !HasName(old(rows), e.name)
      ensures Contents() == AfterFirstOrCreate(old(Contents()), e, slugOf)
    {
      created := !HasName(rows, e.name);
      if created {
        rows := rows + [NewTag(nextId, e, slugOf)];
        nextId := nextId + 1;
      }
    }
  }

  /** The lines logged for the entries: whether each one was created. */
  function SeedLog(st: Store, entries: seq<SeedEntry>, slugOf: string -> string): seq<string>
    decreases |entries|
  {
    if entries == [] then []
    else
      var init := entries[..|entries| - 1];
      var e := entries[|entries| - 1];
      SeedLog(st, init, slugOf) + [Message(!HasName(RunAll(st, init, slugOf).rows, e.name), e.name)]
  }

  /** One line per entry: "Created tag" exactly for the entries whose name no
      row had when the loop reached them. */
  lemma {:induction false} SeedLogSpec(st: Store, entries: seq<SeedEntry>, slugOf: string -> string)
    ensures |SeedLog(st, entries, slugOf)| == |entries|
    ensures forall i :: 0 <= i < |entries| ==>
              SeedLog(st, entries, slugOf)[i] ==
                Message(!HasName(RunAll(st, entries[..i], slugOf).rows, entries[i].name), entries[i].name)
    decreases |entries|
  {
    if entries != [] {
      var init := entries[..|entries| - 1];
      var e := entries[|entries| - 1];
      var log := SeedLog(st, entries, slugOf);
      SeedLogSpec(st, init, slugOf);
      assert log == SeedLog(st, init, slugOf) + [Message(!HasName(RunAll(st, init, slugOf).rows, e.name), e.name)];
      forall i | 0 <= i < |entries|
        ensures log[i] == Message(!HasName(RunAll(st, entries[..i], slugOf).rows, entries[i].name), entries[i].name)
      {
        if i < |init| {
          assert init[..i] == entries[..i] && init[i] == entries[i];
          assert log[i] == SeedLog(st, init, slugOf)[i];
        } else {
          assert entries[..i] == init;
        }
      }
    }
  }

  /** The foreach loop over a list of entries, with the line logged for each. */
  method SeedAll(table: TagTable, entries: seq<SeedEntry>, slugOf: string -> string) returns (log: seq<string>)
    modifies table
    ensures table.Contents() == RunAll(old(table.Contents()), entries, slugOf)
    ensures log == SeedLog(old(table.Contents()), entries, slugOf)
  {
    var start := table.Contents();
    log := [];
    for i := 0 to |entries|
      invariant table.Contents() == RunAll(start, entries[..i], slugOf)
      invariant log == SeedLog(start, entries[..i], slugOf)
    {
      var e := entries[i];
      var created := table.FirstOrCreate(e, slugOf);
      assert entries[..i + 1][..i] == entries[..i];
      log := log + [Message(created, e.name)];
    }
    assert entries[..|entries|] == entries;
  }

  /** run(): the loop over the list, then the closing line. */
  method Run(table: TagTable, slugOf: string -> string) returns (log: seq<string>)
    modifies table
    ensures table.Contents() == RunAll(old(table.Contents()), SeedTags, slugOf)
    ensures log == SeedLog(old(table.Contents()), SeedTags, slugOf) + ["All tags have been processed successfully!"]
  {
    log := SeedAll(table, SeedTags, slugOf);
    log := log + ["All tags have been processed successfully!"];
  }
}
