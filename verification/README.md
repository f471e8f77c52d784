# Spring Cloud Bindings: MySQL and Kafka properties processors

This project models two binding processors from Spring Cloud Bindings. A binding is one mounted
secret bundle. It has a name, a kind such as "MySQL", a provider and a string-to-string secret.
Each processor reads the bindings of its own kind and writes Spring Boot properties into a shared
property map:

- The MySQL processor writes up to four `spring.datasource.*` keys for each "MySQL" binding. It
  always writes the password, the JDBC URL `jdbc:mysql://<host>:<port>/<database>` and the user
  name. It writes the driver class only when the MariaDB or Connector/J driver class loads.
- The Kafka processor copies up to four `*bootstrap-servers` secret entries to their
  `spring.kafka.*` keys for each binding of its kind. Each entry is copied only when present.
  The kind constant is the literal "Cassandra".

Both processors are pure functions from (guard result, bindings, property map) to a new property
map. The MySQL processor also takes the result of its two class-loader probes.

Modules:

- `Wrappers` (wrappers.dfy): `Option`, whose `None` stands for Java `null`.
- `Bindings` (bindings.dfy): the `Binding` record, `Map.get` on a secret, and the kind filter.
- `Properties` (properties.dfy): the property map (`PropertyMap`), the copy-if-present key mapper (`MapFrom`) and
  `LastWith`. `LastWith` gives the value of a key in the last binding that holds it.
- `MySql` (mysql.dfy) and `Kafka` (kafka.dfy): the two processors.

Property values are `Option<string>`. `None` is the Java `null` that `properties.put` stores
when `secret.get` misses. A key mapped to `None` is therefore different from an absent key.

The folds over the bindings apply all but the last binding, then the last one. This is the same
left-to-right order as the source's `forEach`. Stating it from the back makes "the last binding
wins" a direct induction.

In the MySQL processor, a missing `username` or `password` stores `null` under its key. A
missing `host`, `port` or `database` is rendered as the text "null" in the URL (`MySql.Render`).
The Kafka processor skips missing fields.

## Model

| member | source | states |
|---|---|---|
| Bindings.Get | src/main/java/org/springframework/cloud/bindings/boot/MySqlBindingsPropertiesProcessor.java:58-61 | `secret.get`: a value exactly when the secret holds the key, and then that key's value. A missing key gives `null`. |
| Bindings.FilterBindings | src/main/java/org/springframework/cloud/bindings/boot/MySqlBindingsPropertiesProcessor.java:44 | The filtered list is no longer than the input. Every element has the requested kind. A binding is in the result exactly when it is in the input and has that kind. |
| Bindings.FilterAppend | src/main/java/org/springframework/cloud/bindings/boot/KafkaBindingsPropertiesProcessor.java:42 | Filtering a concatenation is the concatenation of the filtered parts, so discovery order is kept. |
| Bindings.FilterSkipsOtherKind | src/main/java/org/springframework/cloud/bindings/boot/MySqlBindingsPropertiesProcessor.java:44 | Removing a binding of another kind from any position does not change the filter result. |
| Bindings.FilterIdempotent | src/main/java/org/springframework/cloud/bindings/boot/MySqlBindingsPropertiesProcessor.java:44 | Filtering an already filtered list by the same kind returns it unchanged. |
| Properties.MapFrom | src/main/java/org/springframework/cloud/bindings/boot/KafkaBindingsPropertiesProcessor.java:43-48 | Copy-if-present. When the secret holds the source key, the target holds its value. Otherwise the map is identical. No other key changes. |
| Properties.LastWithByIndex | src/main/java/org/springframework/cloud/bindings/boot/KafkaBindingsPropertiesProcessor.java:42-49 | The last-holder value is absent exactly when no binding holds the key. Otherwise it is the key's value in some binding that holds it, and no later binding holds the key. |
| MySql.Render | src/main/java/org/springframework/cloud/bindings/boot/MySqlBindingsPropertiesProcessor.java:59-60 | `%s` of `String.format`: a present value is printed as is, and `null` as the text "null". |
| MySql.UrlOfCompleteSecret | src/main/java/org/springframework/cloud/bindings/boot/MySqlBindingsPropertiesProcessor.java:59-60 | When the secret holds host, port and database, the URL is `jdbc:mysql://` + host + ":" + port + "/" + database. |
| MySql.UrlOfPartialSecret | src/main/java/org/springframework/cloud/bindings/boot/MySqlBindingsPropertiesProcessor.java:59-60 | For any secret, the URL has the same shape, with the text "null" in place of each missing part. |
| MySql.MissingHost | src/main/java/org/springframework/cloud/bindings/boot/MySqlBindingsPropertiesProcessor.java:59-60 | A secret with port "1" and database "d" but no host yields `jdbc:mysql://null:1/d`. |
| MySql.UrlRoundTrip | src/main/java/org/springframework/cloud/bindings/boot/MySqlBindingsPropertiesProcessor.java:59-60 | The URL `jdbc:mysql://host:port/database` parses back to its host, port and database whenever the host has no ':' and the port has no '/'. |
| MySql.ApplyBinding | src/main/java/org/springframework/cloud/bindings/boot/MySqlBindingsPropertiesProcessor.java:45-61 | After one binding, the map holds that binding's URL, user name and password. The driver key holds MariaDB if it loads, else Connector/J if it loads, else it keeps its old entry. Only those keys change. |
| MySql.ApplyAll | src/main/java/org/springframework/cloud/bindings/boot/MySqlBindingsPropertiesProcessor.java:44-62 | With no bindings the map is unchanged. Otherwise every written key reflects the last binding. Keys outside the written set keep their entries. The driver key is among those kept when no driver loads. |
| MySql.Process | src/main/java/org/springframework/cloud/bindings/boot/MySqlBindingsPropertiesProcessor.java:39-62 | A disabled kind or no "MySQL" binding leaves the map unchanged. Otherwise the URL, user name and password are those of the last MySQL binding. The driver key holds MariaDB if it loads, else Connector/J if it loads, else it keeps its old entry. Every other key is unchanged. |
| MySql.MissingCredentialsStoreNull | src/main/java/org/springframework/cloud/bindings/boot/MySqlBindingsPropertiesProcessor.java:58-61 | When the last MySQL binding lacks `username` and `password`, both keys are present in the result and hold `null`. |
| MySql.IgnoresOtherKinds | src/main/java/org/springframework/cloud/bindings/boot/MySqlBindingsPropertiesProcessor.java:36-44 | Inserting a binding of a kind other than "MySQL" anywhere in the input gives the same result. |
| MySql.OnlyMatchingBindings | src/main/java/org/springframework/cloud/bindings/boot/MySqlBindingsPropertiesProcessor.java:44 | Processing only the MySQL bindings gives the same map as processing all of them. |
| MySql.Idempotent | src/main/java/org/springframework/cloud/bindings/boot/MySqlBindingsPropertiesProcessor.java:39-62 | Running the processor again on its own output changes nothing. |
| MySql.LastBindingWins | src/main/java/org/springframework/cloud/bindings/boot/MySqlBindingsPropertiesProcessor.java:44-61 | With two MySQL bindings, the URL, user name and password are those of the second one. |
| MySql.CompleteSecret | src/main/java/org/springframework/cloud/bindings/boot/MySqlBindingsPropertiesProcessor.java:58-61 | The secret host "h", port "5432", database "d", user "u", password "p" yields the URL `jdbc:mysql://h:5432/d`, user name "u" and password "p". |
| Kafka.ApplyBinding | src/main/java/org/springframework/cloud/bindings/boot/KafkaBindingsPropertiesProcessor.java:43-48 | After one binding, each of the four targets holds its own source entry when the secret has it, and keeps its old entry otherwise. Nothing outside the four targets changes. |
| Kafka.TracksStep | src/main/java/org/springframework/cloud/bindings/boot/KafkaBindingsPropertiesProcessor.java:42-49 | A target that follows its source over a prefix still follows it after one more binding's copy-if-present write. |
| Kafka.ApplyAll | src/main/java/org/springframework/cloud/bindings/boot/KafkaBindingsPropertiesProcessor.java:42-49 | Each target holds its source value from the last binding that has that source key. When no binding has it, the target keeps its original entry. Keys outside the four targets keep their entries. |
| Kafka.ProcessOfKind | src/main/java/org/springframework/cloud/bindings/boot/KafkaBindingsPropertiesProcessor.java:37-49 | For any filter kind, a disabled guard or no matching binding leaves the map unchanged. Otherwise the four targets follow the matching bindings as in `ApplyAll`, and every other key is unchanged. |
| Kafka.Process | src/main/java/org/springframework/cloud/bindings/boot/KafkaBindingsPropertiesProcessor.java:34-49 | A disabled guard or no binding of the kind as written, "Cassandra", leaves the map unchanged. Otherwise each `spring.kafka.*` target follows its own source key over the "Cassandra" bindings, and no other key changes. |
| Kafka.ProcessIntended | src/main/java/org/springframework/cloud/bindings/boot/KafkaBindingsPropertiesProcessor.java:30-49 | The same properties as `Process`, but over the bindings of kind "Kafka". |
| Kafka.KindMismatch | src/main/java/org/springframework/cloud/bindings/boot/KafkaBindingsPropertiesProcessor.java:34 | As written, a "Kafka" binding with `bootstrap-servers` leaves an empty map empty, but a "Cassandra" binding is mapped. The intended processor maps the "Kafka" binding to `spring.kafka.bootstrap-servers`. |
| Kafka.IgnoresOtherKinds | src/main/java/org/springframework/cloud/bindings/boot/KafkaBindingsPropertiesProcessor.java:34-42 | For any filter kind, so for both the as-written and the intended processor, inserting a binding of another kind anywhere in the input gives the same result. |
| Kafka.Idempotent | src/main/java/org/springframework/cloud/bindings/boot/KafkaBindingsPropertiesProcessor.java:37-49 | Running the processor again on its own output changes nothing, for any filter kind. |
| Kafka.LastPresentWins | src/main/java/org/springframework/cloud/bindings/boot/KafkaBindingsPropertiesProcessor.java:42-48 | Take two bindings where only the first has `bootstrap-servers` and both have `consumer.bootstrap-servers`. The first supplies `spring.kafka.bootstrap-servers` and the second supplies the consumer key. |

## Left out

- The guards `Guards.isKindEnabled(KIND)` and `isKindEnabled(environment, KIND)` are not part of this model. Their result is the `enabled` input of each processor.
- `Class.forName` probing of the two driver classes is class-loader reflection. It becomes the two flags of `MySql.ClassPath`.
- The internals of `MapMapper` are not part of this model. It is modelled only as copy-if-present (`Properties.MapFrom`), which is how the Kafka processor uses it.
- `Bindings` and `Binding` are not part of this model beyond their use here: a sequence of records and a kind filter. The kind filter is modelled as order-keeping, case-sensitive equality; the comparison `filterBindings` uses is not shown in the modelled files. Discovering bindings on the file system is not modelled.
- Logging, the ordered registry that runs every processor, and registering the map as a Spring property source are framework plumbing and are left out.
- The property map's value type `Object` is narrowed to strings or `null`. Both processors only ever write those.

## Findings

| source | as written | input that shows it | evidently intended | confidence | as-written member | corrected member |
|---|---|---|---|---|---|---|
| src/main/java/org/springframework/cloud/bindings/boot/KafkaBindingsPropertiesProcessor.java:34 | The Kafka processor's `KIND` is "Cassandra". So it ignores "Kafka" bindings and maps the bootstrap-servers entries of "Cassandra" bindings. The same constant is passed to the guard `isKindEnabled(environment, KIND)` at line 38, so the guard consulted is the one for "Cassandra". | One binding of kind "Kafka" with secret `{bootstrap-servers: "b"}` and the processor enabled. The map stays empty. | `KIND = "Kafka"`, so the binding sets `spring.kafka.bootstrap-servers` to "b". | high (not executed) | Kafka.KindMismatch | Kafka.ProcessIntended |
